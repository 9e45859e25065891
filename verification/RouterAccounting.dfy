/** Where every packet is, in every reachable state, and who gets its reply. */
module RouterAccounting {
  import opened Wire
  import opened Messages
  import opened WorkQueue
  import opened Router
  import opened RouterLocking

  function BatchOf(w: Worker): seq<Packet> {
    if w.Serving? || w.Answering? then w.batch else []
  }

  function InBatches(workers: seq<Worker>): multiset<Packet> {
    if workers == [] then multiset{} else multiset(BatchOf(workers[0])) + InBatches(workers[1..])
  }

  function Origins(rs: seq<Response>): seq<Packet> {
    seq(|rs|, i requires 0 <= i < |rs| => rs[i].origin)
  }

  predicate IsQueued(p: Packet) {
    p.async || p.GetType() == GET || p.GetType() == SET || p.GetType() == INCREMENT
  }

  // Packets the dispatcher answers itself.
  predicate IsDirect(p: Packet) {
    !p.async && (p.GetType() == SET || p.GetType() == SERVER_LIST || p.GetType() == STATS)
  }

  function QueuedPart(ps: seq<Packet>): seq<Packet> {
    if ps == [] then []
    else QueuedPart(ps[..|ps| - 1]) + if IsQueued(ps[|ps| - 1]) then [ps[|ps| - 1]] else []
  }

  function DirectPart(ps: seq<Packet>): seq<Packet> {
    if ps == [] then []
    else DirectPart(ps[..|ps| - 1]) + if IsDirect(ps[|ps| - 1]) then [ps[|ps| - 1]] else []
  }

  // While a list is being switched, the message that asked for it has no reply yet.
  predicate DirectInv(s: State) {
    if s.dispatcher == Idle then Origins(s.direct) == DirectPart(s.received)
    else
      && s.received != [] && s.received[|s.received| - 1] == s.dispatcher.p
      && IsDirect(s.dispatcher.p) && s.dispatcher.p.GetType() == SERVER_LIST
      && Origins(s.direct) == DirectPart(s.received[..|s.received| - 1])
  }

  predicate CountInv(s: State) {
    && s.pushed == QueuedPart(s.received)
    && multiset(s.pushed) == multiset(s.queue) + InBatches(s.workers) + multiset(s.applied) + multiset(s.sent)
    && multiset(s.sent) == multiset(Origins(s.pipe)) + multiset(Origins(s.forwarded))
  }

  predicate KindInv(s: State) {
    && (forall i :: 0 <= i < |s.received| ==> s.received[i].id == i)
    && (forall i :: 0 <= i < |s.received| && s.received[i].async ==> s.received[i].GetType() == SET)
    && (forall p :: p in s.applied ==> p.GetType() == SET)
    && (forall p :: p in s.sent ==> p.GetType() != SET)
  }

  predicate WellAddressed(r: Response) {
    && |r.frames| == |r.origin.frameIds| + 2
    && r.frames[..|r.origin.frameIds| + 1] == r.origin.frameIds + [[]]
  }

  predicate AddressInv(s: State) {
    && (forall i :: 0 <= i < |s.pipe| ==> WellAddressed(s.pipe[i]))
    && (forall i :: 0 <= i < |s.direct| ==> WellAddressed(s.direct[i]))
    && (forall i :: 0 <= i < |s.forwarded| ==> WellAddressed(s.forwarded[i]))
  }

  predicate Accounted(s: State) {
    DirectInv(s) && CountInv(s) && KindInv(s) && AddressInv(s)
  }

  // ---------------------------------------------------------------- small facts

  lemma {:induction false} InBatchesUpdate(workers: seq<Worker>, w: nat, x: Worker)
    requires w < |workers|
    ensures InBatches(workers[w := x]) + multiset(BatchOf(workers[w])) == InBatches(workers) + multiset(BatchOf(x))
    decreases |workers|
  {
    hide BatchOf;
    var ws := workers[w := x];
    if w == 0 {
      assert ws[1..] == workers[1..];
      Regroup(multiset{}, multiset(BatchOf(x)), InBatches(ws[1..]), multiset(BatchOf(workers[0])), InBatches(ws[1..]));
    } else {
      InBatchesUpdate(workers[1..], w - 1, x);
      assert ws[1..] == workers[1..][w - 1 := x];
      Regroup(multiset(BatchOf(workers[0])), multiset(BatchOf(x)), InBatches(ws[1..]),
              multiset(BatchOf(workers[w])), InBatches(workers[1..]));
    }
  }

  lemma Regroup(h: multiset<Packet>, x: multiset<Packet>, a: multiset<Packet>, y: multiset<Packet>, b: multiset<Packet>)
    ensures a == b ==> x + a + y == y + b + x
    ensures a + y == b + x ==> (h + a) + y == (h + b) + x
  {
    if a + y == b + x {
      assert (h + a) + y == h + (a + y);
      assert (h + b) + x == h + (b + x);
    }
  }

  lemma Cancel(a: multiset<Packet>, b: multiset<Packet>, c: multiset<Packet>)
    requires a + c == b + c
    ensures a == b
  {
    forall p ensures a[p] == b[p] {
      assert (a + c)[p] == (b + c)[p];
    }
  }

  lemma InBatchesSame(workers: seq<Worker>, w: nat, x: Worker)
    requires w < |workers| && BatchOf(x) == BatchOf(workers[w])
    ensures InBatches(workers[w := x]) == InBatches(workers)
  {
    hide InBatches;
    InBatchesUpdate(workers, w, x);
    Cancel(InBatches(workers[w := x]), InBatches(workers), multiset(BatchOf(x)));
  }

  lemma {:induction false} InBatchesPointwise(a: seq<Worker>, b: seq<Worker>)
    requires |a| == |b| && forall i :: 0 <= i < |a| ==> BatchOf(a[i]) == BatchOf(b[i])
    ensures InBatches(a) == InBatches(b)
    decreases |a|
  {
    hide BatchOf;
    if a != [] {
      InBatchesPointwise(a[1..], b[1..]);
    }
  }

  lemma {:induction false} NoBatches(workers: seq<Worker>)
    requires forall i :: 0 <= i < |workers| ==> BatchOf(workers[i]) == []
    ensures InBatches(workers) == multiset{}
    decreases |workers|
  {
    if workers != [] {
      NoBatches(workers[1..]);
    }
  }

  lemma NotifyOneBatches(workers: seq<Worker>, wake: nat)
    requires NotifyOne(workers, wake).Some?
    ensures InBatches(NotifyOne(workers, wake).value) == InBatches(workers)
  {
    if wake < |workers| && workers[wake].Waiting? {
      InBatchesSame(workers, wake, Signalled(workers[wake].list));
    }
  }

  lemma OriginsAppend(rs: seq<Response>, r: Response)
    ensures Origins(rs + [r]) == Origins(rs) + [r.origin]
  {
  }

  lemma OriginsRemove(rs: seq<Response>, i: nat)
    requires i < |rs|
    ensures multiset(Origins(rs)) == multiset(Origins(rs[..i] + rs[i + 1..])) + multiset{rs[i].origin}
  {
    var os := Origins(rs);
    assert Origins(rs[..i] + rs[i + 1..]) == os[..i] + os[i + 1..];
    assert os == os[..i] + [os[i]] + os[i + 1..];
  }

  lemma PartsAppend(ps: seq<Packet>, p: Packet)
    ensures QueuedPart(ps + [p]) == QueuedPart(ps) + if IsQueued(p) then [p] else []
    ensures DirectPart(ps + [p]) == DirectPart(ps) + if IsDirect(p) then [p] else []
  {
    assert (ps + [p])[..|ps|] == ps;
  }

  lemma ReplyAddressed(p: Packet, payload: Bytes, worker: Option<nat>)
    ensures WellAddressed(Reply(p, payload, worker))
  {
  }

  // ---------------------------------------------------------------- steps

  lemma PushCounts(s: State, p: Packet, wake: nat)
    requires Push(s, p, wake).Some?
    requires KindInv(s) && AddressInv(s) && DirectInv(s)
    requires s.pushed + [p] == QueuedPart(s.received)
    requires multiset(s.pushed) == multiset(s.queue) + InBatches(s.workers) + multiset(s.applied) + multiset(s.sent)
    requires multiset(s.sent) == multiset(Origins(s.pipe)) + multiset(Origins(s.forwarded))
    ensures Accounted(Push(s, p, wake).value)
  {
    hide NotifyOne, QueuedPart, DirectPart, Origins, InBatches;
    NotifyOneBatches(s.workers, wake);
  }

  lemma PushedRouterAccounts(s: State, p: Packet, frames: seq<Bytes>, wake: nat)
    requires Accounted(s) && s.dispatcher == Idle && p.id == |s.received| && !p.async
    requires p.GetType() == GET || p.GetType() == INCREMENT
    requires Push(Log(s, p, frames), p, wake).Some?
    ensures Accounted(Push(Log(s, p, frames), p, wake).value)
  {
    hide Push, QueuedPart, DirectPart, Origins, InBatches, WellAddressed;
    PartsAppend(s.received, p);
    PushCounts(Log(s, p, frames), p, wake);
  }

  lemma DirectAccounts(s: State, p: Packet, frames: seq<Bytes>, payload: Bytes)
    requires Accounted(s) && s.dispatcher == Idle && p.id == |s.received|
    requires IsDirect(p)
    ensures var s' := Log(s, p, frames).(direct := s.direct + [Reply(p, payload, None)]);
      && DirectInv(s') && KindInv(s') && AddressInv(s')
      && (p.GetType() != SET ==> CountInv(s'))
      && (p.GetType() == SET ==> s.pushed + [p] == QueuedPart(s'.received))
  {
    hide QueuedPart, DirectPart, Origins, InBatches, WellAddressed, Reply;
    PartsAppend(s.received, p);
    OriginsAppend(s.direct, Reply(p, payload, None));
    ReplyAddressed(p, payload, None);
    ReplyOrigin(p, payload, None);
  }

  lemma StoppingAccounts(s: State, p: Packet, frames: seq<Bytes>)
    requires Accounted(s) && s.dispatcher == Idle && p.id == |s.received| && !p.async && p.GetType() == SERVER_LIST
    ensures Accounted(Log(s, p, frames).(dispatcher := Stopping(p), done := true))
  {
    hide QueuedPart, DirectPart, Origins, InBatches, WellAddressed;
    PartsAppend(s.received, p);
    assert (s.received + [p])[..|s.received|] == s.received;
  }

  lemma RouterAccounts(s: State, frames: seq<Bytes>, instruction: Instruction, payload: Bytes, wake: nat)
    requires Accounted(s) && DoReceiveRouter(s, frames, instruction, payload, wake).Some?
    ensures Accounted(DoReceiveRouter(s, frames, instruction, payload, wake).value)
  {
    hide Push, Matching, DirectInv, CountInv, KindInv, AddressInv, Reply;
    var p := Arrived(s, false, frames, instruction);
    match p.GetType()
    case SET =>
      DirectAccounts(s, p, frames, []);
      CountsOf(s);
      PushCounts(Log(s, p, frames).(direct := s.direct + [Reply(p, [], None)]), p, wake);
    case GET => PushedRouterAccounts(s, p, frames, wake);
    case INCREMENT => PushedRouterAccounts(s, p, frames, wake);
    case STATS => DirectAccounts(s, p, frames, payload);
    case SERVER_LIST =>
      DirectAccounts(s, p, frames, []);
      StoppingAccounts(s, p, frames);
    case UNKNOWN =>
  }

  lemma CountsOf(s: State)
    requires CountInv(s)
    ensures multiset(s.pushed) == multiset(s.queue) + InBatches(s.workers) + multiset(s.applied) + multiset(s.sent)
    ensures multiset(s.sent) == multiset(Origins(s.pipe)) + multiset(Origins(s.forwarded))
  {
  }

  lemma SetQueueDoneAccounts(s: State)
    requires Accounted(s) && Next(s, SetQueueDone).Some?
    ensures Accounted(Next(s, SetQueueDone).value)
  {
    hide QueuedPart, DirectPart, Origins, InBatches, WellAddressed;
  }

  lemma ReplyOrigin(p: Packet, payload: Bytes, worker: Option<nat>)
    ensures Reply(p, payload, worker).origin == p
  {
  }

  lemma AsyncAccounts(s: State, frames: seq<Bytes>, instruction: Instruction, wake: nat)
    requires Accounted(s) && DoReceiveAsync(s, frames, instruction, wake).Some?
    ensures Accounted(DoReceiveAsync(s, frames, instruction, wake).value)
  {
    hide Push, QueuedPart, DirectPart, Origins, InBatches, WellAddressed;
    var p := Arrived(s, true, frames, instruction);
    PartsAppend(s.received, p);
    PushCounts(Log(s, p, frames), p, wake);
  }

  lemma ForwardAccounts(s: State, i: nat, w: nat, granted: nat)
    requires Accounted(s) && DoForward(s, i, w, granted).Some?
    ensures Accounted(DoForward(s, i, w, granted).value)
  {
    hide QueuedPart, DirectPart, Origins, InBatches, WellAddressed;
    OriginsRemove(s.pipe, i);
    OriginsAppend(s.forwarded, s.pipe[i]);
  }

  lemma RestartAccounts(s: State, n: nat, capacity: nat)
    requires Accounted(s) && DoRestart(s, n, capacity).Some?
    ensures Accounted(DoRestart(s, n, capacity).value)
  {
    hide QueuedPart, DirectPart, Origins, WellAddressed, Reply;
    var p, m := s.dispatcher.p, |s.received| - 1;
    NoBatches(s.workers);
    NoBatches(seq(n, _ => Starting));
    hide InBatches;
    PartsAppend(s.received[..m], p);
    assert s.received == s.received[..m] + [p];
    OriginsAppend(s.direct, Reply(p, [], None));
    ReplyAddressed(p, [], None);
    ReplyOrigin(p, [], None);
  }

  lemma NotifyAccounts(s: State, wake: nat)
    requires Accounted(s) && NotifyOne(s.workers, wake).Some?
    ensures Accounted(s.(workers := NotifyOne(s.workers, wake).value))
  {
    hide QueuedPart, DirectPart, Origins, InBatches, WellAddressed, NotifyOne;
    NotifyOneBatches(s.workers, wake);
  }

  lemma TakeAccounts(s: State, w: nat, n: nat)
    requires Accounted(s) && w < |s.workers| && s.workers[w].Ready? && n <= |s.queue|
    ensures Accounted(s.(lock := None, queue := s.queue[n..], popped := s.popped + [s.queue[..n]],
                         workers := s.workers[w := Serving(s.workers[w].list, s.queue[..n])]))
  {
    hide QueuedPart, DirectPart, Origins, InBatches, WellAddressed;
    var batch, worker := s.queue[..n], Serving(s.workers[w].list, s.queue[..n]);
    InBatchesUpdate(s.workers, w, worker);
    assert s.queue == batch + s.queue[n..];
    Moves(multiset(s.queue), multiset(batch), multiset(s.queue[n..]), InBatches(s.workers),
          InBatches(s.workers[w := worker]), s.applied, s.sent);
  }

  lemma PopAccounts(s: State, w: nat, wake: nat)
    requires Accounted(s) && w < |s.workers| && DoPop(s, w, wake).Some?
    ensures Accounted(DoPop(s, w, wake).value)
  {
    hide Accounted, NotifyOne, BatchSize;
    if s.queueDone || s.queue == [] {
      LeaveAccounts(s, w);
    } else {
      var n := BatchSize(s.queue);
      TakeAccounts(s, w, n);
      if s.queue[n..] != [] {
        NotifyAccounts(s.(lock := None, queue := s.queue[n..], popped := s.popped + [s.queue[..n]],
                         workers := s.workers[w := Serving(s.workers[w].list, s.queue[..n])]), wake);
      }
    }
  }

  lemma LeaveAccounts(s: State, w: nat)
    requires Accounted(s) && w < |s.workers| && s.workers[w].Ready?
    ensures Accounted(s.(lock := None, workers := s.workers[w := Serving(s.workers[w].list, [])]))
  {
    hide QueuedPart, DirectPart, Origins, InBatches, WellAddressed;
    InBatchesSame(s.workers, w, Serving(s.workers[w].list, []));
  }

  // A batch leaves the queue and enters the worker.
  lemma Moves(
    q: multiset<Packet>, b: multiset<Packet>, q': multiset<Packet>,
    w: multiset<Packet>, w': multiset<Packet>, x: seq<Packet>, y: seq<Packet>)
    requires q == b + q' && w' == w + b
    ensures q + w + multiset(x) + multiset(y) == q' + w' + multiset(x) + multiset(y)
  {
    assert q + w == q' + w';
  }

  // A packet leaves the worker and joins the finished ones.
  lemma Finishes(
    p: Packet, w: multiset<Packet>, w': multiset<Packet>, batch: seq<Packet>,
    q: multiset<Packet>, a: seq<Packet>, b: seq<Packet>)
    requires batch != [] && batch[0] == p
    requires w' + multiset(batch) == w + multiset(batch[1..])
    ensures q + w + multiset(a) + multiset(b) == q + w' + multiset(a + [p]) + multiset(b)
    ensures q + w + multiset(a) + multiset(b) == q + w' + multiset(a) + multiset(b + [p])
  {
    assert batch == [p] + batch[1..];
    assert multiset(batch) == multiset{p} + multiset(batch[1..]);
    forall x ensures w[x] == w'[x] + multiset{p}[x] {
      assert (w' + multiset(batch))[x] == (w + multiset(batch[1..]))[x];
    }
    assert w == w' + multiset{p};
  }

  lemma ServeAccounts(s: State, w: nat, payload: Bytes)
    requires Accounted(s) && w < |s.workers| && DoServe(s, w, payload).Some?
    ensures Accounted(DoServe(s, w, payload).value)
  {
    hide QueuedPart, DirectPart, Origins, InBatches, WellAddressed, Reply;
    var batch := s.workers[w].batch;
    var p := batch[0];
    InBatchesUpdate(s.workers, w, Serving(s.workers[w].list, batch[1..]));
    Finishes(p, InBatches(s.workers), InBatches(s.workers[w := Serving(s.workers[w].list, batch[1..])]), batch,
             multiset(s.queue), s.applied, s.sent);
    OriginsAppend(s.pipe, Reply(p, payload, Some(s.started + w)));
    ReplyAddressed(p, payload, Some(s.started + w));
    ReplyOrigin(p, payload, Some(s.started + w));
  }

  lemma FetchAccounts(s: State, w: nat, f: Fetched)
    requires Accounted(s) && w < |s.workers| && DoFetch(s, w, f).Some?
    ensures Accounted(DoFetch(s, w, f).value)
  {
    hide QueuedPart, DirectPart, Origins, InBatches, WellAddressed, GoodFetch, AllGets;
    InBatchesSame(s.workers, w, Answering(s.workers[w].list, f.batch, f.answers));
  }

  lemma AnswerAccounts(s: State, w: nat, payload: Bytes)
    requires Accounted(s) && BatchInv(s) && w < |s.workers| && DoAnswer(s, w, payload).Some?
    ensures Accounted(DoAnswer(s, w, payload).value)
  {
    hide QueuedPart, DirectPart, Origins, InBatches, WellAddressed, Reply, Encodes;
    var batch, answers := s.workers[w].batch, s.workers[w].answers;
    var p := batch[0];
    InBatchesUpdate(s.workers, w, Answering(s.workers[w].list, batch[1..], answers));
    Finishes(p, InBatches(s.workers), InBatches(s.workers[w := Answering(s.workers[w].list, batch[1..], answers)]),
             batch, multiset(s.queue), s.applied, s.sent);
    OriginsAppend(s.pipe, Reply(p, payload, Some(s.started + w)));
    ReplyAddressed(p, payload, Some(s.started + w));
    ReplyOrigin(p, payload, Some(s.started + w));
  }

  lemma WorkerAccounts(s: State, a: Action)
    requires a.ReadList? || a.TestDone? || a.LockQueue? || a.Block? || a.SpuriousWake? || a.FinishBatch?
    requires Accounted(s) && a.w < |s.workers| && DoWorker(s, a).Some?
    ensures Accounted(DoWorker(s, a).value)
  {
    hide QueuedPart, DirectPart, Origins, InBatches, WellAddressed;
    var s' := DoWorker(s, a).value;
    assert s'.workers == s.workers[a.w := s'.workers[a.w]];
    InBatchesSame(s.workers, a.w, s'.workers[a.w]);
  }

  lemma NotifyAllAccounts(s: State)
    requires Accounted(s) && Next(s, NotifyAll).Some?
    ensures Accounted(Next(s, NotifyAll).value)
  {
    hide QueuedPart, DirectPart, Origins, InBatches, WellAddressed;
    var s' := Next(s, NotifyAll).value;
    InBatchesPointwise(s'.workers, s.workers);
  }

  lemma NextAccounts(s: State, a: Action)
    requires Accounted(s) && BatchInv(s) && Next(s, a).Some?
    ensures Accounted(Next(s, a).value)
  {
    hide DoReceiveRouter, DoReceiveAsync, DoForward, DoRestart, DoPop, DoServe, DoFetch, DoAnswer, DoWorker;
    hide Accounted, BatchInv;
    match a
    case ReceiveRouter(frames, instruction, payload, wake) => RouterAccounts(s, frames, instruction, payload, wake);
    case ReceiveAsync(frames, instruction, wake) => AsyncAccounts(s, frames, instruction, wake);
    case Forward(i, w, granted) => ForwardAccounts(s, i, w, granted);
    case SetQueueDone => SetQueueDoneAccounts(s);
    case NotifyAll => NotifyAllAccounts(s);
    case Restart(n, capacity) => RestartAccounts(s, n, capacity);
    case Pop(w, wake) => PopAccounts(s, w, wake);
    case Serve(w, payload) => ServeAccounts(s, w, payload);
    case Fetch(w, f) => FetchAccounts(s, w, f);
    case Answer(w, payload) => AnswerAccounts(s, w, payload);
    case _ => WorkerAccounts(s, a);
  }

  lemma InitialAccounted()
    ensures Accounted(Initial)
  {
  }

  lemma {:induction false} RunAccounted(actions: seq<Action>)
    requires Run(actions).Some?
    ensures Accounted(Run(actions).value)
    decreases |actions|
  {
    hide Next, Accounted;
    if actions == [] {
      InitialAccounted();
    } else {
      RunAccounted(actions[..|actions| - 1]);
      BatchesServable(actions[..|actions| - 1]);
      NextAccounts(Run(actions[..|actions| - 1]).value, actions[|actions| - 1]);
    }
  }

  // ---------------------------------------------------------------- the account of one packet

  function Replies(s: State, p: Packet): nat {
    multiset(Origins(s.direct))[p] + multiset(Origins(s.forwarded))[p]
  }

  lemma {:induction false} PartCounts(ps: seq<Packet>, p: Packet)
    requires forall i :: 0 <= i < |ps| ==> ps[i].id == i
    requires p.id < |ps| ==> p == ps[p.id]
    ensures multiset(QueuedPart(ps))[p] == if p.id < |ps| && IsQueued(p) then 1 else 0
    ensures multiset(DirectPart(ps))[p] == if p.id < |ps| && IsDirect(p) then 1 else 0
    decreases |ps|
  {
    hide IsQueued, IsDirect;
    if ps != [] {
      var rest, last := ps[..|ps| - 1], ps[|ps| - 1];
      if p == last {
        NotYet(rest, p);
      } else {
        PartCounts(rest, p);
      }
    }
  }

  lemma {:induction false} NotYet(ps: seq<Packet>, p: Packet)
    requires forall i :: 0 <= i < |ps| ==> ps[i] != p
    ensures multiset(QueuedPart(ps))[p] == 0 && multiset(DirectPart(ps))[p] == 0
    decreases |ps|
  {
    hide IsQueued, IsDirect;
    if ps != [] {
      NotYet(ps[..|ps| - 1], p);
    }
  }

  // Every queued packet is in one place; every packet the dispatcher answers has one reply.
  lemma CountsOfPacket(s: State, i: nat)
    requires Accounted(s) && i < |s.received|
    ensures var p := s.received[i];
      && multiset(s.queue)[p] + InBatches(s.workers)[p] + multiset(s.applied)[p] + multiset(s.sent)[p]
         == (if IsQueued(p) then 1 else 0)
      && multiset(s.sent)[p] == multiset(Origins(s.pipe))[p] + multiset(Origins(s.forwarded))[p]
      && (p.GetType() != SET ==> multiset(s.applied)[p] == 0)
      && (p.GetType() == SET ==> multiset(s.sent)[p] == 0)
  {
    hide QueuedPart, DirectPart, Origins, InBatches, WellAddressed, AddressInv, DirectInv;
    var p := s.received[i];
    PartCounts(s.received, p);
    assert multiset(s.pushed)[p] ==
      multiset(s.queue)[p] + InBatches(s.workers)[p] + multiset(s.applied)[p] + multiset(s.sent)[p];
    assert multiset(s.applied)[p] > 0 ==> p in s.applied;
    assert multiset(s.sent)[p] > 0 ==> p in s.sent;
  }

  lemma DirectOfPacket(s: State, i: nat)
    requires Accounted(s) && i < |s.received|
    ensures var p := s.received[i];
      multiset(Origins(s.direct))[p] ==
        if IsDirect(p) && !(s.dispatcher != Idle && s.dispatcher.p == p) then 1 else 0
  {
    hide QueuedPart, DirectPart, Origins, InBatches, WellAddressed, AddressInv, CountInv;
    var p := s.received[i];
    if s.dispatcher == Idle {
      PartCounts(s.received, p);
    } else {
      var m := |s.received| - 1;
      if i == m {
        NotYet(s.received[..m], p);
      } else {
        PartCounts(s.received[..m], p);
      }
    }
  }

  /**
   In every reachable state, each received packet is accounted for:
   a GET or INCR is in exactly one of queue, a worker's batch, the output pipe, or replied to, once;
   a SET is in exactly one of queue, a batch, or applied, and was replied to exactly once if it came
   in by the router socket and never if it came in by the asynchronous one;
   a STATS request has been replied to once, and so has a server list unless it is being put in
   force.  Every reply carries the envelope of the packet it answers.
   */
  lemma EveryPacketAccounted(actions: seq<Action>, i: nat)
    requires Run(actions).Some? && i < |Run(actions).value.received|
    ensures var s := Run(actions).value;
      var p := s.received[i];
      var queued, batched := multiset(s.queue)[p], InBatches(s.workers)[p];
      var piped, done := multiset(Origins(s.pipe))[p], multiset(s.applied)[p];
      && (p.GetType() == GET || p.GetType() == INCREMENT ==> queued + batched + piped + Replies(s, p) == 1)
      && (p.GetType() == SET ==>
            queued + batched + done == 1 && piped == 0 && Replies(s, p) == if p.async then 0 else 1)
      && (p.GetType() == STATS ==> queued + batched + piped + done == 0 && Replies(s, p) == 1)
      && (p.GetType() == SERVER_LIST ==>
            queued + batched + piped + done == 0
            && Replies(s, p) == if s.dispatcher != Idle && s.dispatcher.p == p then 0 else 1)
    ensures AddressInv(Run(actions).value)
  {
    hide Run, Accounted, InBatches, Origins;
    RunAccounted(actions);
    CountsOfPacket(Run(actions).value, i);
    DirectOfPacket(Run(actions).value, i);
    SwitchingKind(Run(actions).value);
  }

  /**
   The same told from the fields of the instruction.  In every run a packet that asks for keys gets
   one reply through a worker; one that sets keys and asks for none is applied, never sent by a
   worker, and acknowledged by the dispatcher once if it came in by the router socket; one that only
   increments is sent by a worker and never applied; a server list and a statistics request never
   reach a worker; and nothing else is ever received.
   */
  lemma PacketsByFields(actions: seq<Action>, i: nat)
    requires Run(actions).Some? && i < |Run(actions).value.received|
    ensures var s := Run(actions).value;
      var p := s.received[i];
      var ask := p.instruction;
      var waiting := multiset(s.queue)[p] + InBatches(s.workers)[p];
      var applied, sent := multiset(s.applied)[p], multiset(s.sent)[p];
      var acknowledged, replied := multiset(Origins(s.direct))[p], multiset(Origins(s.forwarded))[p];
      && (ask.getKeys != [] || ask.setKeys != [] || ask.incrKeys != [] || ask.servers != [] || ask.stats.Some?)
      && (p.async ==> ask.getKeys == [] && ask.setKeys != [])
      && (ask.getKeys != [] ==>
            waiting + sent == 1 && applied == 0 && acknowledged == 0 && replied <= sent)
      && (ask.getKeys == [] && ask.setKeys != [] ==>
            waiting + applied == 1 && sent == 0 && replied == 0 && acknowledged == if p.async then 0 else 1)
      && (ask.getKeys == [] && ask.setKeys == [] && ask.incrKeys != [] ==>
            waiting + sent == 1 && applied == 0 && acknowledged == 0 && replied <= sent)
      && (ask.getKeys == [] && ask.setKeys == [] && ask.incrKeys == [] ==>
            waiting == 0 && applied == 0 && sent == 0 && replied == 0)
      && (ask.getKeys == [] && ask.setKeys == [] && ask.incrKeys == [] && ask.servers != [] ==>
            acknowledged == if s.dispatcher != Idle && s.dispatcher.p == p then 0 else 1)
      && (ask.getKeys == [] && ask.setKeys == [] && ask.incrKeys == [] && ask.servers == [] ==> acknowledged == 1)
  {
    hide Run, Accounted, InBatches, Origins;
    var s := Run(actions).value;
    RunAccounted(actions);
    CountsOfPacket(s, i);
    DirectOfPacket(s, i);
    SwitchingKind(s);
    KindsReceived(actions);
    assert s.received[i].GetType() != UNKNOWN;
  }

  // A packet of no known kind makes the router abort.
  predicate KnownKinds(ps: seq<Packet>) {
    forall i :: 0 <= i < |ps| ==> ps[i].GetType() != UNKNOWN
  }

  lemma NextKinds(s: State, a: Action)
    requires KnownKinds(s.received) && Next(s, a).Some?
    ensures KnownKinds(Next(s, a).value.received)
  {
    hide Next;
    if a.ReceiveRouter? || a.ReceiveAsync? {
      ReceiptKind(s, a);
    } else {
      NothingNew(s, a);
    }
  }

  lemma {:induction false} KindsReceived(actions: seq<Action>)
    requires Run(actions).Some?
    ensures KnownKinds(Run(actions).value.received)
    decreases |actions|
  {
    if actions != [] {
      hide Next, KnownKinds;
      KindsReceived(actions[..|actions| - 1]);
      NextKinds(Run(actions[..|actions| - 1]).value, actions[|actions| - 1]);
    }
  }

  lemma ReceiptKind(s: State, a: Action)
    requires (a.ReceiveRouter? || a.ReceiveAsync?) && Next(s, a).Some?
    ensures var p := Arrived(s, a.ReceiveAsync?, a.frames, a.instruction);
      Next(s, a).value.received == s.received + [p] && p.GetType() != UNKNOWN
  {
    hide Matching, Decodes, Push;
    var p := Arrived(s, a.ReceiveAsync?, a.frames, a.instruction);
    var s1 := Log(s, p, a.frames);
    var s2 := s1.(direct := s.direct + [Reply(p, [], None)]);
    if Push(s1, p, a.wake).Some? { PushFrame(s1, p, a.wake); }
    if Push(s2, p, a.wake).Some? { PushFrame(s2, p, a.wake); }
  }

  lemma NothingNew(s: State, a: Action)
    requires !a.ReceiveRouter? && !a.ReceiveAsync? && Next(s, a).Some?
    ensures Next(s, a).value.received == s.received
  {
    hide DoReceiveRouter, DoReceiveAsync, DoPop, DoServe, DoFetch, DoAnswer;
    match a
    case Pop(w, wake) => PopForce(s, w, wake);
    case Serve(_, _) => BatchStepsGoOn(s, a);
    case Fetch(_, _) => BatchStepsGoOn(s, a);
    case Answer(_, _) => BatchStepsGoOn(s, a);
    case _ =>
  }

  lemma SwitchingKind(s: State)
    requires Accounted(s)
    ensures s.dispatcher != Idle ==> s.dispatcher.p.GetType() == SERVER_LIST
    ensures AddressInv(s)
    ensures forall i :: 0 <= i < |s.received| && s.received[i].async ==> s.received[i].GetType() == SET
  {
  }
}
