/** The mutex, the condition variable and the server list, in every interleaving. */
module RouterLocking {
  import opened Wire
  import opened Messages
  import opened WorkQueue
  import opened Router
  import opened Seqs
  import Batch
  import MemClient

  predicate HoldsLock(w: Worker) { w.AboutToWait? || w.Ready? }

  // Which states have work left to look at.
  predicate WillLook(w: Worker) { w.Signalled? || w.Ready? }

  predicate SomeWaiting(workers: seq<Worker>) {
    exists i :: 0 <= i < |workers| && workers[i].Waiting?
  }

  predicate SomeWillLook(workers: seq<Worker>) {
    exists i :: 0 <= i < |workers| && WillLook(workers[i])
  }

  /** Mutual exclusion, and what a lock holder knows about the queue. */
  predicate LockInv(s: State) {
    && (s.lock.Some? ==> s.lock.value < |s.workers|)
    && (forall i :: 0 <= i < |s.workers| ==> (HoldsLock(s.workers[i]) <==> s.lock == Some(i)))
    && (forall i :: 0 <= i < |s.workers| && s.workers[i].AboutToWait? ==> s.queue == [])
    && (forall i :: 0 <= i < |s.workers| && s.workers[i].Ready? ==> s.queueDone || s.queue != [])
  }

  /** No lost wake-up: with work queued and a worker blocked, some worker is on its way to the queue. */
  predicate WakeInv(s: State) {
    !s.queueDone && s.queue != [] && SomeWaiting(s.workers) ==> SomeWillLook(s.workers)
  }

  lemma NotifyOneWakes(workers: seq<Worker>, wake: nat)
    requires NotifyOne(workers, wake).Some?
    ensures var r := NotifyOne(workers, wake).value;
      && |r| == |workers|
      && (forall i :: 0 <= i < |r| ==>
            HoldsLock(r[i]) == HoldsLock(workers[i]) && r[i].AboutToWait? == workers[i].AboutToWait?)
      && (SomeWaiting(r) ==> SomeWillLook(r))
  {
  }

  lemma PushKeeps(s: State, p: Packet, wake: nat)
    requires LockInv(s) && Push(s, p, wake).Some?
    ensures LockInv(Push(s, p, wake).value) && WakeInv(Push(s, p, wake).value)
  {
    hide NotifyOne;
    NotifyOneWakes(s.workers, wake);
  }

  lemma PopKeeps(s: State, w: nat, wake: nat)
    requires LockInv(s) && WakeInv(s) && w < |s.workers| && DoPop(s, w, wake).Some?
    ensures LockInv(DoPop(s, w, wake).value) && WakeInv(DoPop(s, w, wake).value)
  {
    hide NotifyOne, BatchSize;
    if !s.queueDone && s.queue != [] {
      var workers := s.workers[w := Serving(s.workers[w].list, s.queue[..BatchSize(s.queue)])];
      if NotifyOne(workers, wake).Some? {
        NotifyOneWakes(workers, wake);
      }
    }
  }

  lemma WorkerKeeps(s: State, a: Action)
    requires a.ReadList? || a.TestDone? || a.LockQueue? || a.Block? || a.SpuriousWake? || a.FinishBatch?
    requires LockInv(s) && WakeInv(s) && a.w < |s.workers| && DoWorker(s, a).Some?
    ensures LockInv(DoWorker(s, a).value) && WakeInv(DoWorker(s, a).value)
  {
    var s' := DoWorker(s, a).value;
    var w := a.w;
    assert forall i :: 0 <= i < |s.workers| && i != w ==> s'.workers[i] == s.workers[i];
    assert LockInv(s');
    if !s'.queueDone && s'.queue != [] && SomeWaiting(s'.workers) {
      var i :| 0 <= i < |s'.workers| && s'.workers[i].Waiting?;
      assert SomeWaiting(s.workers) by { assert i != w ==> s.workers[i].Waiting?; }
      var j :| 0 <= j < |s.workers| && WillLook(s.workers[j]);
      assert WillLook(s'.workers[j]);
    }
  }

  predicate Busy(w: Worker) { w.Serving? || w.Answering? }

  // A worker going on with its batch touches neither lock nor queue.
  predicate GoesOn(s: State, s': State, w: nat) {
    && w < |s.workers| == |s'.workers| && Busy(s.workers[w]) && Busy(s'.workers[w])
    && (forall i :: 0 <= i < |s.workers| && i != w ==> s'.workers[i] == s.workers[i])
    && s'.lock == s.lock && s'.queue == s.queue && s'.done == s.done && s'.queueDone == s.queueDone
    && s'.dispatcher == s.dispatcher && s'.serverList == s.serverList && s'.received == s.received
    && s'.inbox == s.inbox && s'.pushed == s.pushed && s'.popped == s.popped
    && s'.workers[w].list == s.workers[w].list
  }

  lemma BatchStepsGoOn(s: State, a: Action)
    requires (a.Serve? || a.Fetch? || a.Answer?) && Next(s, a).Some?
    ensures GoesOn(s, Next(s, a).value, a.w)
  {
    hide GoodFetch, Encodes;
  }

  lemma GoesOnKeeps(s: State, s': State, w: nat)
    requires LockInv(s) && WakeInv(s) && GoesOn(s, s', w)
    ensures LockInv(s') && WakeInv(s')
  {
    if SomeWillLook(s.workers) {
      var j :| 0 <= j < |s.workers| && WillLook(s.workers[j]);
      assert WillLook(s'.workers[j]);
    }
  }

  lemma RouterKeeps(s: State, frames: seq<Bytes>, instruction: Instruction, payload: Bytes, wake: nat)
    requires LockInv(s) && WakeInv(s) && DoReceiveRouter(s, frames, instruction, payload, wake).Some?
    ensures var s' := DoReceiveRouter(s, frames, instruction, payload, wake).value; LockInv(s') && WakeInv(s')
  {
    hide Push, Matching;
    var p := Arrived(s, false, frames, instruction);
    var s1 := Log(s, p, frames);
    var s2 := s1.(direct := s.direct + [Reply(p, [], None)]);
    assert LockInv(s1) && LockInv(s2);
    if Push(s1, p, wake).Some? { PushKeeps(s1, p, wake); }
    if Push(s2, p, wake).Some? { PushKeeps(s2, p, wake); }
  }

  lemma AsyncKeeps(s: State, frames: seq<Bytes>, instruction: Instruction, wake: nat)
    requires LockInv(s) && WakeInv(s) && DoReceiveAsync(s, frames, instruction, wake).Some?
    ensures var s' := DoReceiveAsync(s, frames, instruction, wake).value; LockInv(s') && WakeInv(s')
  {
    hide Push;
    var p := Arrived(s, true, frames, instruction);
    var s1 := Log(s, p, frames);
    assert LockInv(s1);
    PushKeeps(s1, p, wake);
  }

  lemma NotifyAllKeeps(s: State)
    requires LockInv(s) && Next(s, NotifyAll).Some?
    ensures LockInv(Next(s, NotifyAll).value) && WakeInv(Next(s, NotifyAll).value)
  {
    var s' := Next(s, NotifyAll).value;
    assert forall i :: 0 <= i < |s.workers| ==> s'.workers[i] == WakeUp(s.workers[i]);
  }

  lemma NextKeeps(s: State, a: Action)
    requires LockInv(s) && WakeInv(s) && Next(s, a).Some?
    ensures LockInv(Next(s, a).value) && WakeInv(Next(s, a).value)
  {
    hide DoReceiveRouter, DoReceiveAsync, DoPop, DoServe, DoFetch, DoAnswer, DoWorker;
    match a
    case ReceiveRouter(frames, instruction, payload, wake) => RouterKeeps(s, frames, instruction, payload, wake);
    case ReceiveAsync(frames, instruction, wake) => AsyncKeeps(s, frames, instruction, wake);
    case Forward(_, _, _) =>
    case SetQueueDone =>
    case NotifyAll => NotifyAllKeeps(s);
    case Restart(_, _) =>
    case Pop(w, wake) => PopKeeps(s, w, wake);
    case Serve(w, _) => BatchStepsGoOn(s, a); GoesOnKeeps(s, Next(s, a).value, w);
    case Fetch(w, _) => BatchStepsGoOn(s, a); GoesOnKeeps(s, Next(s, a).value, w);
    case Answer(w, _) => BatchStepsGoOn(s, a); GoesOnKeeps(s, Next(s, a).value, w);
    case ReadList(_) => WorkerKeeps(s, a);
    case TestDone(_) => WorkerKeeps(s, a);
    case LockQueue(_) => WorkerKeeps(s, a);
    case Block(_) => WorkerKeeps(s, a);
    case SpuriousWake(_) => WorkerKeeps(s, a);
    case FinishBatch(_) => WorkerKeeps(s, a);
  }

  /** Both hold in every reachable state. */
  lemma {:induction false} NoLostWakeUp(actions: seq<Action>)
    requires Run(actions).Some?
    ensures LockInv(Run(actions).value)
    ensures WakeInv(Run(actions).value)
    decreases |actions|
  {
    if actions != [] {
      hide Next, LockInv, WakeInv;
      NoLostWakeUp(actions[..|actions| - 1]);
      NextKeeps(Run(actions[..|actions| - 1]).value, actions[|actions| - 1]);
    }
  }

  /** The announcement of a switch reaches every worker that is blocked by then, and leaves the others alone. */
  lemma AnnouncementWakes(s: State, i: nat)
    requires Next(s, NotifyAll).Some? && i < |s.workers|
    ensures var s' := Next(s, NotifyAll).value;
      && |s'.workers| == |s.workers| && !s'.workers[i].Waiting?
      && (s.workers[i].Waiting? ==> s'.workers[i] == Signalled(s.workers[i].list))
      && (!s.workers[i].Waiting? ==> s'.workers[i] == s.workers[i])
  {
  }

  // ---------------------------------------------------------------- batches

  /** A batch being served is one packet that is no GET, or GETs; answers cover all GETs that wait for them. */
  predicate Servable(w: Worker) {
    && (w.Serving? ==> AllGets(w.batch) || (|w.batch| == 1 && w.batch[0].GetType() != GET))
    && (w.Answering? ==>
          AllGets(w.batch) && forall i :: 0 <= i < |w.batch| ==> Batch.Covers(w.answers, w.batch[i].instruction))
  }

  predicate BatchInv(s: State) {
    forall i :: 0 <= i < |s.workers| ==> Servable(s.workers[i])
  }

  lemma NotifyOneServable(workers: seq<Worker>, wake: nat)
    requires NotifyOne(workers, wake).Some?
    requires forall i :: 0 <= i < |workers| ==> Servable(workers[i])
    ensures forall i :: 0 <= i < |NotifyOne(workers, wake).value| ==> Servable(NotifyOne(workers, wake).value[i])
  {
  }

  lemma GoodBatchServable(list: Instruction, batch: seq<Packet>)
    requires GoodBatch(batch)
    ensures Servable(Serving(list, batch))
  {
    hide KeyTotal;
  }

  lemma PopServable(s: State, w: nat, wake: nat)
    requires BatchInv(s) && w < |s.workers| && DoPop(s, w, wake).Some?
    ensures BatchInv(DoPop(s, w, wake).value)
  {
    var list := s.workers[w].list;
    assert Servable(Serving(list, []));
    hide NotifyOne, BatchSize, Servable, GoodBatch, Longest;
    if !s.queueDone && s.queue != [] {
      var batch := s.queue[..BatchSize(s.queue)];
      GoodBatchServable(list, batch);
      var workers := s.workers[w := Serving(list, batch)];
      if NotifyOne(workers, wake).Some? {
        NotifyOneServable(workers, wake);
      }
    }
  }

  lemma PushServable(s: State, p: Packet, wake: nat)
    requires BatchInv(s) && Push(s, p, wake).Some?
    ensures BatchInv(Push(s, p, wake).value)
  {
    hide NotifyOne, Servable;
    NotifyOneServable(s.workers, wake);
  }

  lemma RouterServable(s: State, frames: seq<Bytes>, instruction: Instruction, payload: Bytes, wake: nat)
    requires BatchInv(s) && DoReceiveRouter(s, frames, instruction, payload, wake).Some?
    ensures BatchInv(DoReceiveRouter(s, frames, instruction, payload, wake).value)
  {
    hide Push, Matching, Decodes, Servable;
    var p := Arrived(s, false, frames, instruction);
    var s1 := Log(s, p, frames);
    var s2 := s1.(direct := s.direct + [Reply(p, [], None)]);
    if Push(s1, p, wake).Some? { PushServable(s1, p, wake); }
    if Push(s2, p, wake).Some? { PushServable(s2, p, wake); }
  }

  lemma AsyncServable(s: State, frames: seq<Bytes>, instruction: Instruction, wake: nat)
    requires BatchInv(s) && DoReceiveAsync(s, frames, instruction, wake).Some?
    ensures BatchInv(DoReceiveAsync(s, frames, instruction, wake).value)
  {
    hide Push, Decodes, Servable;
    var p := Arrived(s, true, frames, instruction);
    PushServable(Log(s, p, frames), p, wake);
  }

  lemma FetchCovers(f: Fetched, i: nat)
    requires GoodFetch(f) && i < |f.batch|
    ensures Batch.Covers(f.answers, f.batch[i].instruction)
  {
    var instructions := Instructions(f.batch);
    hide MemClient.ReadThrough;
    MemClient.ReadKeepsKeys(f.cfg, f.cache, f.store, Batch.Wanted(instructions), f.keys, f.arrival);
    assert instructions[i] == f.batch[i].instruction;
  }

  lemma FetchServable(s: State, w: nat, f: Fetched)
    requires BatchInv(s) && w < |s.workers| && DoFetch(s, w, f).Some?
    ensures BatchInv(DoFetch(s, w, f).value)
  {
    hide GoodFetch, Batch.Covers;
    forall i | 0 <= i < |f.batch|
      ensures Batch.Covers(f.answers, f.batch[i].instruction)
    {
      FetchCovers(f, i);
    }
  }

  lemma AnswerServable(s: State, w: nat, payload: Bytes)
    requires BatchInv(s) && w < |s.workers| && DoAnswer(s, w, payload).Some?
    ensures BatchInv(DoAnswer(s, w, payload).value)
  {
    hide Encodes, Batch.Covers;
  }

  lemma ServeServable(s: State, w: nat, payload: Bytes)
    requires BatchInv(s) && w < |s.workers| && DoServe(s, w, payload).Some?
    ensures BatchInv(DoServe(s, w, payload).value)
  {
    assert Servable(s.workers[w]);
  }

  lemma WorkerServable(s: State, a: Action)
    requires a.ReadList? || a.TestDone? || a.LockQueue? || a.Block? || a.SpuriousWake? || a.FinishBatch?
    requires BatchInv(s) && a.w < |s.workers| && DoWorker(s, a).Some?
    ensures BatchInv(DoWorker(s, a).value)
  {
    var s' := DoWorker(s, a).value;
    assert forall i :: 0 <= i < |s.workers| && i != a.w ==> s'.workers[i] == s.workers[i];
  }

  lemma NotifyAllServable(s: State)
    requires BatchInv(s) && Next(s, NotifyAll).Some?
    ensures BatchInv(Next(s, NotifyAll).value)
  {
    var s' := Next(s, NotifyAll).value;
    assert forall i :: 0 <= i < |s.workers| ==> s'.workers[i] == WakeUp(s.workers[i]);
  }

  lemma NextServable(s: State, a: Action)
    requires BatchInv(s) && Next(s, a).Some?
    ensures BatchInv(Next(s, a).value)
  {
    hide DoReceiveRouter, DoReceiveAsync, DoPop, DoServe, DoFetch, DoAnswer, DoWorker;
    match a
    case ReceiveRouter(frames, instruction, payload, wake) => RouterServable(s, frames, instruction, payload, wake);
    case ReceiveAsync(frames, instruction, wake) => AsyncServable(s, frames, instruction, wake);
    case Pop(w, wake) => PopServable(s, w, wake);
    case Serve(w, payload) => ServeServable(s, w, payload);
    case Fetch(w, f) => FetchServable(s, w, f);
    case Answer(w, payload) => AnswerServable(s, w, payload);
    case NotifyAll => NotifyAllServable(s);
    case Forward(_, _, _) =>
    case SetQueueDone =>
    case Restart(_, _) =>
    case _ => WorkerServable(s, a);
  }

  /** In every run the workers hold batches they can serve, and fetched answers cover them. */
  lemma {:induction false} BatchesServable(actions: seq<Action>)
    requires Run(actions).Some?
    ensures BatchInv(Run(actions).value)
    decreases |actions|
  {
    if actions != [] {
      hide Next, BatchInv;
      BatchesServable(actions[..|actions| - 1]);
      NextServable(Run(actions[..|actions| - 1]).value, actions[|actions| - 1]);
    }
  }

  // ---------------------------------------------------------------- server lists

  predicate HasList(w: Worker) { !w.Starting? && !w.Exited? }

  /** Workers exist only once a list arrived, and every worker past its start uses the list in force. */
  predicate ListInv(s: State) {
    && (s.serverList.None? ==> s.workers == [] && s.popped == [] && s.sent == [] && s.applied == [])
    && (forall i :: 0 <= i < |s.workers| && HasList(s.workers[i]) ==> s.serverList == Some(s.workers[i].list))
  }

  lemma NotifyOneLists(workers: seq<Worker>, wake: nat)
    requires NotifyOne(workers, wake).Some?
    ensures var r := NotifyOne(workers, wake).value;
      && |r| == |workers|
      && (forall i :: 0 <= i < |r| ==>
            HasList(r[i]) == HasList(workers[i]) && (HasList(r[i]) ==> r[i].list == workers[i].list))
  {
  }

  lemma PushLists(s: State, p: Packet, wake: nat)
    requires ListInv(s) && Push(s, p, wake).Some?
    ensures ListInv(Push(s, p, wake).value)
  {
    hide NotifyOne;
    NotifyOneLists(s.workers, wake);
  }

  lemma PopLists(s: State, w: nat, wake: nat)
    requires ListInv(s) && w < |s.workers| && DoPop(s, w, wake).Some?
    ensures ListInv(DoPop(s, w, wake).value)
  {
    hide NotifyOne, BatchSize;
    if s.queue != [] {
      var workers := s.workers[w := Serving(s.workers[w].list, s.queue[..BatchSize(s.queue)])];
      if NotifyOne(workers, wake).Some? {
        NotifyOneLists(workers, wake);
      }
    }
  }

  lemma RouterLists(s: State, frames: seq<Bytes>, instruction: Instruction, payload: Bytes, wake: nat)
    requires ListInv(s) && DoReceiveRouter(s, frames, instruction, payload, wake).Some?
    ensures ListInv(DoReceiveRouter(s, frames, instruction, payload, wake).value)
  {
    hide Push, Matching;
    var p := Arrived(s, false, frames, instruction);
    var s1 := Log(s, p, frames);
    var s2 := s1.(direct := s.direct + [Reply(p, [], None)]);
    assert ListInv(s1) && ListInv(s2);
    if Push(s1, p, wake).Some? { PushLists(s1, p, wake); }
    if Push(s2, p, wake).Some? { PushLists(s2, p, wake); }
  }

  lemma AsyncLists(s: State, frames: seq<Bytes>, instruction: Instruction, wake: nat)
    requires ListInv(s) && DoReceiveAsync(s, frames, instruction, wake).Some?
    ensures ListInv(DoReceiveAsync(s, frames, instruction, wake).value)
  {
    hide Push;
    var p := Arrived(s, true, frames, instruction);
    PushLists(Log(s, p, frames), p, wake);
  }

  lemma BatchStepLists(s: State, a: Action)
    requires (a.Serve? || a.Fetch? || a.Answer?) && ListInv(s) && Next(s, a).Some?
    ensures ListInv(Next(s, a).value)
  {
    assert s.serverList.None? ==> Next(s, a).None?;
    hide Next;
    BatchStepsGoOn(s, a);
  }

  lemma RestartLists(s: State, n: nat, capacity: nat)
    requires ListInv(s) && DoRestart(s, n, capacity).Some?
    ensures ListInv(DoRestart(s, n, capacity).value)
  {
  }

  lemma NotifyAllLists(s: State)
    requires ListInv(s) && Next(s, NotifyAll).Some?
    ensures ListInv(Next(s, NotifyAll).value)
  {
    var s' := Next(s, NotifyAll).value;
    assert forall i :: 0 <= i < |s.workers| ==> s'.workers[i] == WakeUp(s.workers[i]);
  }

  lemma WorkerLists(s: State, a: Action)
    requires a.ReadList? || a.TestDone? || a.LockQueue? || a.Block? || a.SpuriousWake? || a.FinishBatch?
    requires ListInv(s) && a.w < |s.workers| && DoWorker(s, a).Some?
    ensures ListInv(DoWorker(s, a).value)
  {
    var s' := DoWorker(s, a).value;
    assert forall i :: 0 <= i < |s.workers| && i != a.w ==> s'.workers[i] == s.workers[i];
  }

  lemma NextLists(s: State, a: Action)
    requires ListInv(s) && Next(s, a).Some?
    ensures ListInv(Next(s, a).value)
  {
    hide DoReceiveRouter, DoReceiveAsync, DoPop, DoServe, DoFetch, DoAnswer, DoWorker, DoRestart;
    match a
    case ReceiveRouter(frames, instruction, payload, wake) => RouterLists(s, frames, instruction, payload, wake);
    case ReceiveAsync(frames, instruction, wake) =>
      AsyncLists(s, frames, instruction, wake);
    case Pop(w, wake) => PopLists(s, w, wake);
    case Serve(_, _) => BatchStepLists(s, a);
    case Fetch(_, _) => BatchStepLists(s, a);
    case Answer(_, _) => BatchStepLists(s, a);
    case Restart(n, capacity) => RestartLists(s, n, capacity);
    case Forward(_, _, _) =>
    case SetQueueDone =>
    case NotifyAll => NotifyAllLists(s);
    case _ => WorkerLists(s, a);
  }

  /** No batch is taken before the first list arrives, and no live worker uses a list that was replaced. */
  lemma {:induction false} WorkersUseListInForce(actions: seq<Action>)
    requires Run(actions).Some?
    ensures ListInv(Run(actions).value)
    decreases |actions|
  {
    if actions != [] {
      hide Next, ListInv;
      WorkersUseListInForce(actions[..|actions| - 1]);
      NextLists(Run(actions[..|actions| - 1]).value, actions[|actions| - 1]);
    }
  }

  // The list in force after the packets received: the last one found different from its predecessor.
  function InForce(received: seq<Packet>): Option<Instruction> {
    if received == [] then None
    else
      var before, p := InForce(received[..|received| - 1]), received[|received| - 1];
      if !p.async && p.GetType() == SERVER_LIST && Matching(before, p.instruction) == Some(false)
      then Some(p.instruction)
      else before
  }

  predicate ForceInv(s: State) {
    if s.dispatcher == Idle then s.serverList == InForce(s.received)
    else
      && s.received != [] && s.received[|s.received| - 1] == s.dispatcher.p
      && s.serverList == InForce(s.received[..|s.received| - 1])
      && !s.dispatcher.p.async && s.dispatcher.p.GetType() == SERVER_LIST
      && Matching(s.serverList, s.dispatcher.p.instruction) == Some(false)
  }

  lemma InForceNext(ps: seq<Packet>, p: Packet)
    ensures InForce(ps + [p]) ==
      if !p.async && p.GetType() == SERVER_LIST && Matching(InForce(ps), p.instruction) == Some(false)
      then Some(p.instruction) else InForce(ps)
  {
    assert (ps + [p])[..|ps|] == ps;
  }

  lemma PushFrame(s: State, p: Packet, wake: nat)
    requires Push(s, p, wake).Some?
    ensures var s' := Push(s, p, wake).value;
      && s'.received == s.received && s'.serverList == s.serverList && s'.dispatcher == s.dispatcher
      && s'.inbox == s.inbox && s'.fetches == s.fetches && s'.applied == s.applied
      && s'.pipe == s.pipe && s'.forwarded == s.forwarded && s'.room == s.room && s'.started == s.started
      && |s'.workers| == |s.workers|
      && (forall i :: 0 <= i < |s.workers| && s'.workers[i].Answering? ==> s'.workers[i] == s.workers[i])
  {
  }

  lemma RouterForce(s: State, frames: seq<Bytes>, instruction: Instruction, payload: Bytes, wake: nat)
    requires ForceInv(s) && DoReceiveRouter(s, frames, instruction, payload, wake).Some?
    ensures ForceInv(DoReceiveRouter(s, frames, instruction, payload, wake).value)
  {
    hide Push, Matching, InForce;
    var p := Arrived(s, false, frames, instruction);
    var s1 := Log(s, p, frames);
    var s2 := s1.(direct := s.direct + [Reply(p, [], None)]);
    InForceNext(s.received, p);
    assert s1.received[..|s.received|] == s.received;
    if Push(s1, p, wake).Some? { PushFrame(s1, p, wake); }
    if Push(s2, p, wake).Some? { PushFrame(s2, p, wake); }
  }

  lemma AsyncForce(s: State, frames: seq<Bytes>, instruction: Instruction, wake: nat)
    requires ForceInv(s) && DoReceiveAsync(s, frames, instruction, wake).Some?
    ensures ForceInv(DoReceiveAsync(s, frames, instruction, wake).value)
  {
    hide Push, Matching, InForce;
    var p := Arrived(s, true, frames, instruction);
    InForceNext(s.received, p);
    PushFrame(Log(s, p, frames), p, wake);
  }

  lemma RestartForce(s: State, n: nat, capacity: nat)
    requires ForceInv(s) && DoRestart(s, n, capacity).Some?
    ensures ForceInv(DoRestart(s, n, capacity).value)
  {
    hide Matching, InForce;
    var m := |s.received| - 1;
    InForceNext(s.received[..m], s.dispatcher.p);
    assert s.received == s.received[..m] + [s.dispatcher.p];
  }

  lemma PopForce(s: State, w: nat, wake: nat)
    requires w < |s.workers| && DoPop(s, w, wake).Some?
    ensures var s' := DoPop(s, w, wake).value;
      s'.received == s.received && s'.serverList == s.serverList && s'.dispatcher == s.dispatcher
  {
    hide BatchSize, NotifyOne;
  }

  lemma NextForce(s: State, a: Action)
    requires ForceInv(s) && Next(s, a).Some?
    ensures ForceInv(Next(s, a).value)
  {
    hide DoReceiveRouter, DoReceiveAsync, DoPop, DoServe, DoFetch, DoAnswer, DoRestart, Matching, InForce;
    match a
    case ReceiveRouter(frames, instruction, payload, wake) => RouterForce(s, frames, instruction, payload, wake);
    case ReceiveAsync(frames, instruction, wake) => AsyncForce(s, frames, instruction, wake);
    case Restart(n, capacity) => RestartForce(s, n, capacity);
    case Pop(w, wake) => PopForce(s, w, wake);
    case Serve(_, _) => BatchStepsGoOn(s, a);
    case Fetch(_, _) => BatchStepsGoOn(s, a);
    case Answer(_, _) => BatchStepsGoOn(s, a);
    case _ =>
  }

  /** Whatever the interleaving, the list in force is determined by the packets received. */
  lemma {:induction false} ListInForce(actions: seq<Action>)
    requires Run(actions).Some?
    ensures ForceInv(Run(actions).value)
    decreases |actions|
  {
    if actions != [] {
      hide Next, ForceInv;
      ListInForce(actions[..|actions| - 1]);
      NextForce(Run(actions[..|actions| - 1]).value, actions[|actions| - 1]);
    }
  }

  // ---------------------------------------------------------------- order

  /** The queue is first in, first out, and every batch has a shape the clients library can serve. */
  predicate FifoInv(s: State) {
    && s.pushed == Flatten(s.popped) + s.queue
    && (forall b :: b in s.popped ==> GoodBatch(b))
  }

  lemma PopFifo(s: State, w: nat, wake: nat)
    requires FifoInv(s) && w < |s.workers| && DoPop(s, w, wake).Some?
    ensures FifoInv(DoPop(s, w, wake).value)
  {
    hide NotifyOne, GoodBatch, Longest, BatchSize;
    if !s.queueDone && s.queue != [] {
      var n := BatchSize(s.queue);
      var batch := s.queue[..n];
      assert (s.popped + [batch])[..|s.popped|] == s.popped;
      assert s.queue == batch + s.queue[n..];
      assert Flatten(s.popped) + (batch + s.queue[n..]) == Flatten(s.popped) + batch + s.queue[n..];
    }
  }

  lemma NextFifo(s: State, a: Action)
    requires FifoInv(s) && Next(s, a).Some?
    ensures FifoInv(Next(s, a).value)
  {
    hide NotifyOne, DoPop, DoServe, DoFetch, DoAnswer, Flatten, GoodBatch, Matching, Decodes;
    match a
    case ReceiveRouter(frames, instruction, _, _) =>
      var p := Arrived(s, false, frames, instruction);
      assert Flatten(s.popped) + s.queue + [p] == Flatten(s.popped) + (s.queue + [p]);
    case ReceiveAsync(frames, instruction, _) =>
      var p := Arrived(s, true, frames, instruction);
      assert Flatten(s.popped) + s.queue + [p] == Flatten(s.popped) + (s.queue + [p]);
    case Pop(w, wake) => PopFifo(s, w, wake);
    case Serve(_, _) => BatchStepsGoOn(s, a);
    case Fetch(_, _) => BatchStepsGoOn(s, a);
    case Answer(_, _) => BatchStepsGoOn(s, a);
    case _ =>
  }

  /** In every run, what was pushed is what was popped, in pop order, followed by what is queued. */
  lemma {:induction false} QueueIsFifo(actions: seq<Action>)
    requires Run(actions).Some?
    ensures FifoInv(Run(actions).value)
    decreases |actions|
  {
    if actions != [] {
      hide Next, FifoInv;
      QueueIsFifo(actions[..|actions| - 1]);
      NextFifo(Run(actions[..|actions| - 1]).value, actions[|actions| - 1]);
    }
  }
}
