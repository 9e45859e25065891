/** The router at work: without new input it comes to rest, and then everything received has been served. */
module RouterProgress {
  import opened Wire
  import opened Messages
  import opened WorkQueue
  import opened Router
  import opened RouterLocking
  import opened RouterAccounting
  import opened RouterSwitch
  import Batch

  // ---------------------------------------------------------------- between two switches

  predicate OpenInv(s: State) {
    s.dispatcher == Idle ==>
      !s.done && !s.queueDone && forall i :: 0 <= i < |s.workers| ==> !s.workers[i].Exited?
  }

  lemma NotifyOneOpen(workers: seq<Worker>, wake: nat)
    requires NotifyOne(workers, wake).Some?
    ensures var r := NotifyOne(workers, wake).value;
      |r| == |workers| && forall i :: 0 <= i < |r| ==> r[i].Exited? == workers[i].Exited?
  {
  }

  lemma ReceiptOpen(s: State, a: Action)
    requires OpenInv(s) && (a.ReceiveRouter? || a.ReceiveAsync?) && Next(s, a).Some?
    ensures OpenInv(Next(s, a).value)
  {
    hide NotifyOne, Matching, Decodes;
    if NotifyOne(s.workers, a.wake).Some? {
      NotifyOneOpen(s.workers, a.wake);
    }
  }

  lemma PopOpen(s: State, w: nat, wake: nat)
    requires OpenInv(s) && w < |s.workers| && DoPop(s, w, wake).Some?
    ensures OpenInv(DoPop(s, w, wake).value)
  {
    hide NotifyOne, BatchSize;
    if s.queue != [] {
      var workers := s.workers[w := Serving(s.workers[w].list, s.queue[..BatchSize(s.queue)])];
      if NotifyOne(workers, wake).Some? {
        NotifyOneOpen(workers, wake);
      }
    }
  }

  lemma NextOpen(s: State, a: Action)
    requires OpenInv(s) && Next(s, a).Some?
    ensures OpenInv(Next(s, a).value)
  {
    hide DoReceiveRouter, DoReceiveAsync, DoPop, DoServe, DoFetch, DoAnswer;
    match a
    case ReceiveRouter(_, _, _, _) => ReceiptOpen(s, a);
    case ReceiveAsync(_, _, _) => ReceiptOpen(s, a);
    case Pop(w, wake) => PopOpen(s, w, wake);
    case Serve(_, _) => BatchStepsGoOn(s, a);
    case Fetch(_, _) => BatchStepsGoOn(s, a);
    case Answer(_, _) => BatchStepsGoOn(s, a);
    case _ =>
  }

  lemma {:induction false} RunOpen(actions: seq<Action>)
    requires Run(actions).Some?
    ensures OpenInv(Run(actions).value)
    decreases |actions|
  {
    if actions != [] {
      hide Next, OpenInv;
      RunOpen(actions[..|actions| - 1]);
      NextOpen(Run(actions[..|actions| - 1]).value, actions[|actions| - 1]);
    }
  }

  // All that is needed of a state between two switches.
  predicate Working(s: State) {
    s.dispatcher == Idle && OpenInv(s) && LockInv(s) && WakeInv(s) && BatchInv(s) && ListInv(s)
  }

  lemma IdleIsWorking(actions: seq<Action>)
    requires Run(actions).Some? && Run(actions).value.dispatcher == Idle
    ensures Working(Run(actions).value)
  {
    hide Run, OpenInv, LockInv, WakeInv, BatchInv, ListInv;
    RunOpen(actions);
    NoLostWakeUp(actions);
    BatchesServable(actions);
    WorkersUseListInForce(actions);
  }

  // ---------------------------------------------------------------- every step does some work

  /** Steps of workers and the dispatcher's reading of the pipe: no new input, no spurious wake-up. */
  predicate Internal(a: Action) {
    (OfWorker(a) && !a.SpuriousWake?) || a.Forward?
  }

  // The steps a worker can make before it has to look at the queue again, replies counted twice.
  function Load(w: Worker): nat {
    match w
    case Exited => 0
    case Waiting(_) => 0
    case AboutToWait(_) => 1
    case Ready(_) => 1
    case AtPop(_) => 2
    case Signalled(_) => 2
    case Top(_) => 3
    case Starting => 4
    case Serving(_, batch) => if batch == [] then 4 else 5 + 2 * |batch|
    case Answering(_, batch, _) => 4 + 2 * |batch|
  }

  function LoadOf(workers: seq<Worker>): nat {
    if workers == [] then 0 else Load(workers[0]) + LoadOf(workers[1..])
  }

  /** What there is left to do. */
  function Work(s: State): nat {
    10 * |s.queue| + LoadOf(s.workers) + |s.pipe|
  }

  lemma {:induction false} LoadUpdate(workers: seq<Worker>, i: nat, w: Worker)
    requires i < |workers|
    ensures LoadOf(workers[i := w]) == LoadOf(workers) - Load(workers[i]) + Load(w)
    decreases |workers|
  {
    hide Load;
    var workers' := workers[i := w];
    if i == 0 {
      assert workers'[1..] == workers[1..];
    } else {
      LoadUpdate(workers[1..], i - 1, w);
      assert workers'[1..] == workers[1..][i - 1 := w];
    }
  }

  lemma NotifyLoad(workers: seq<Worker>, wake: nat)
    requires NotifyOne(workers, wake).Some?
    ensures LoadOf(NotifyOne(workers, wake).value) <= LoadOf(workers) + 2
  {
    hide LoadOf;
    if wake < |workers| && workers[wake].Waiting? {
      LoadUpdate(workers, wake, Signalled(workers[wake].list));
    }
  }

  // Worker w goes on to w', the queue stays, and at most one reply is sent.
  lemma WorkerWorks(s: State, s': State, w: nat)
    requires w < |s.workers| && |s'.workers| == |s.workers| && s'.workers == s.workers[w := s'.workers[w]]
    requires s'.queue == s.queue && Load(s'.workers[w]) + |s'.pipe| < Load(s.workers[w]) + |s.pipe|
    ensures Work(s') < Work(s)
  {
    hide Load;
    LoadUpdate(s.workers, w, s'.workers[w]);
  }

  lemma ServeWorks(s: State, w: nat, payload: Bytes)
    requires w < |s.workers| && DoServe(s, w, payload).Some?
    ensures Work(DoServe(s, w, payload).value) < Work(s)
  {
    hide Work;
    WorkerWorks(s, DoServe(s, w, payload).value, w);
  }

  lemma FetchWorks(s: State, w: nat, f: Fetched)
    requires w < |s.workers| && DoFetch(s, w, f).Some?
    ensures Work(DoFetch(s, w, f).value) < Work(s)
  {
    hide Work, GoodFetch;
    WorkerWorks(s, DoFetch(s, w, f).value, w);
  }

  lemma AnswerWorks(s: State, w: nat, payload: Bytes)
    requires w < |s.workers| && DoAnswer(s, w, payload).Some?
    ensures Work(DoAnswer(s, w, payload).value) < Work(s)
  {
    hide Work, Encodes, Batch.Covers;
    WorkerWorks(s, DoAnswer(s, w, payload).value, w);
  }

  lemma PopWorks(s: State, w: nat, wake: nat)
    requires Working(s) && w < |s.workers| && DoPop(s, w, wake).Some?
    ensures Work(DoPop(s, w, wake).value) < Work(s)
  {
    hide LoadOf, NotifyOne, BatchSize, WakeInv, BatchInv, ListInv;
    var n := BatchSize(s.queue);
    var worker := Serving(s.workers[w].list, s.queue[..n]);
    LoadUpdate(s.workers, w, worker);
    var workers := s.workers[w := worker];
    if NotifyOne(workers, wake).Some? {
      NotifyLoad(workers, wake);
    }
  }

  lemma OtherWorks(s: State, a: Action)
    requires a.ReadList? || a.TestDone? || a.LockQueue? || a.Block? || a.FinishBatch?
    requires a.w < |s.workers| && DoWorker(s, a).Some?
    ensures Work(DoWorker(s, a).value) < Work(s)
  {
    hide Work;
    WorkerWorks(s, DoWorker(s, a).value, a.w);
  }

  lemma StepWorks(s: State, a: Action)
    requires Working(s) && Internal(a) && Next(s, a).Some?
    ensures Work(Next(s, a).value) < Work(s)
  {
    hide DoPop, DoServe, DoFetch, DoAnswer, DoWorker, Working;
    match a
    case Forward(_, _, _) =>
    case Pop(w, wake) => PopWorks(s, w, wake);
    case Serve(w, payload) => ServeWorks(s, w, payload);
    case Fetch(w, f) => FetchWorks(s, w, f);
    case Answer(w, payload) => AnswerWorks(s, w, payload);
    case _ => OtherWorks(s, a);
  }

  lemma StaysWorking(s: State, a: Action)
    requires Working(s) && Internal(a) && Next(s, a).Some?
    ensures Working(Next(s, a).value)
  {
    StaysIdle(s, a);
    hide Next, OpenInv, LockInv, WakeInv, BatchInv, ListInv, Internal;
    NextOpen(s, a);
    NextKeeps(s, a);
    NextServable(s, a);
    NextLists(s, a);
  }

  lemma StaysIdle(s: State, a: Action)
    requires s.dispatcher == Idle && Internal(a) && Next(s, a).Some?
    ensures Next(s, a).value.dispatcher == Idle
  {
    hide NotifyOne, BatchSize, GoodFetch, Encodes, Batch.Covers;
  }

  predicate AllInternal(more: seq<Action>) {
    forall i :: 0 <= i < |more| ==> Internal(more[i])
  }

  lemma {:induction false} WorkRunsOut(s: State, more: seq<Action>)
    requires Working(s) && AllInternal(more) && RunFrom(s, more).Some?
    ensures var s' := RunFrom(s, more).value;
      Working(s') && |more| + Work(s') <= Work(s)
    decreases |more|
  {
    hide Next, Working, Work, Internal;
    if more != [] {
      StepWorks(s, more[0]);
      StaysWorking(s, more[0]);
      WorkRunsOut(Next(s, more[0]).value, more[1..]);
    }
  }

  // ---------------------------------------------------------------- what can stop the work

  // A legal choice for notify_one.
  lemma SomeWake(workers: seq<Worker>) returns (wake: nat)
    ensures NotifyOne(workers, wake).Some?
  {
    wake := 0;
    if exists i :: 0 <= i < |workers| && workers[i].Waiting? {
      wake :| 0 <= wake < |workers| && workers[wake].Waiting?;
    }
  }

  lemma HolderStep(s: State) returns (a: Action)
    requires Working(s) && s.lock.Some?
    ensures Internal(a) && Next(s, a).Some?
  {
    hide BatchInv, WakeInv, ListInv, NotifyOne, BatchSize;
    var h := s.lock.value;
    assert HoldsLock(s.workers[h]);
    if s.workers[h].AboutToWait? {
      a := Block(h);
    } else {
      var wake := SomeWake(s.workers[h := Serving(s.workers[h].list, s.queue[..BatchSize(s.queue)])]);
      a := Pop(h, wake);
    }
  }

  lemma LooseStep(s: State, i: nat) returns (a: Action)
    requires Working(s) && s.lock.None? && i < |s.workers| && !s.workers[i].Waiting?
    requires RepliesLeft(s.workers[i]) > 0 ==> RoomOf(s, i) > 0
    ensures Internal(a) && Next(s, a).Some?
  {
    hide Servable, WakeInv, RepliesLeft, RoomOf;
    var w := s.workers[i];
    assert !HoldsLock(w) && !w.Exited? && Servable(w);
    match w
    case Starting => a := ReadList(i);
    case Top(_) => a := TestDone(i);
    case AtPop(_) => a := LockQueue(i);
    case Signalled(_) => a := LockQueue(i);
    case Serving(_, _) => a := BusyStep(s, i);
    case Answering(_, _, _) => a := BusyStep(s, i);
  }

  // Some worker has replies to send and the pipe takes none, although all that was in it has been read.
  predicate Jammed(s: State) {
    s.pipe == [] && exists i :: 0 <= i < |s.workers| && RepliesLeft(s.workers[i]) > 0 && RoomOf(s, i) == 0
  }

  predicate AllWaiting(workers: seq<Worker>) {
    forall i :: 0 <= i < |workers| ==> workers[i].Waiting?
  }

  lemma NobodyMissesWork(s: State)
    requires Working(s) && AllWaiting(s.workers) && s.workers != []
    ensures s.queue == []
  {
    assert s.workers[0].Waiting?;
    hide ListInv, BatchInv, LockInv;
  }

  /** As long as a packet is queued, a worker busy or a reply unread, something can go on, unless the pipe jams. */
  lemma SomethingGoesOn(s: State) returns (a: Action)
    requires Working(s) && s.workers != [] && !Jammed(s)
    requires s.queue != [] || s.pipe != [] || !AllWaiting(s.workers)
    ensures Internal(a) && Next(s, a).Some?
  {
    if s.pipe != [] {
      hide Working;
      a := ReadOne(s);
    } else if s.lock.Some? {
      a := HolderStep(s);
    } else {
      hide RepliesLeft, RoomOf;
      if AllWaiting(s.workers) { NobodyMissesWork(s); }
      hide Working;
      var i :| 0 <= i < |s.workers| && !s.workers[i].Waiting?;
      a := LooseStep(s, i);
    }
  }

  lemma ReadOne(s: State) returns (a: Action)
    requires Working(s) && s.pipe != []
    ensures Internal(a) && Next(s, a).Some?
  {
    a := Forward(0, 0, 0);
  }

  // ---------------------------------------------------------------- at rest

  /** Nothing is left to do: nobody holds a packet, and no reply is on its way. */
  predicate AtRest(s: State) {
    s.queue == [] && s.pipe == [] && AllWaiting(s.workers)
  }

  /**
   Without new input the router makes a bounded number of steps in every interleaving, spurious
   wake-ups aside, and as long as it has not come to rest some step is possible, unless there is no
   worker, or a worker has a reply to send and the messaging library gives it no room although
   nothing is left to read.
   */
  lemma ComesToRest(actions: seq<Action>, more: seq<Action>)
    requires Run(actions).Some? && Run(actions).value.dispatcher == Idle
    requires AllInternal(more) && RunFrom(Run(actions).value, more).Some?
    ensures |more| <= Work(Run(actions).value)
    ensures var s := RunFrom(Run(actions).value, more).value;
      AtRest(s) || s.workers == [] || Jammed(s) || exists a :: Internal(a) && Next(s, a).Some?
  {
    hide Run, RunFrom, Next, Working, Work, Internal, Jammed;
    IdleIsWorking(actions);
    WorkRunsOut(Run(actions).value, more);
    var s := RunFrom(Run(actions).value, more).value;
    if !AtRest(s) && s.workers != [] && !Jammed(s) {
      var a := SomethingGoesOn(s);
    }
  }

  // ---------------------------------------------------------------- the pipe does not jam

  // Some reply of worker w is still in the pipe.
  predicate Unread(s: State, w: nat) {
    exists i :: 0 <= i < |s.pipe| && s.pipe[i].worker == Some(s.started + w)
  }

  /**
   What the messaging library owes the workers: some room at the start, and room again for a worker
   when the last of its replies is read.
   */
  ghost predicate Fair(s: State, a: Action) {
    && (a.Restart? ==> a.capacity > 0)
    && (a.Forward? && Next(s, a).Some? ==>
          var s' := Next(s, a).value;
          forall w: nat :: w < |s.workers| && Unread(s, w) && !Unread(s', w) ==> RoomOf(s', w) > 0)
  }

  ghost predicate FairRun(actions: seq<Action>) {
    actions == [] ||
    (FairRun(actions[..|actions| - 1])
     && (Run(actions[..|actions| - 1]).Some? ==>
           Fair(Run(actions[..|actions| - 1]).value, actions[|actions| - 1])))
  }

  ghost predicate RoomInv(s: State) {
    |s.room| == |s.workers| && forall w: nat :: w < |s.workers| ==> RoomOf(s, w) > 0 || Unread(s, w)
  }

  lemma SendKeepsRoom(s: State, w: nat, p: Packet, payload: Bytes)
    requires RoomInv(s) && w < |s.workers| && Send(s, w, p, payload).Some?
    ensures RoomInv(Send(s, w, p, payload).value)
  {
    hide Reply;
    var s' := Send(s, w, p, payload).value;
    forall v: nat | v < |s.workers|
      ensures RoomOf(s', v) > 0 || Unread(s', v)
    {
      if v == w {
        SenderOf(p, payload, Some(s.started + w));
        assert s'.pipe[|s.pipe|].worker == Some(s'.started + w);
      } else if Unread(s, v) {
        var i :| 0 <= i < |s.pipe| && s.pipe[i].worker == Some(s.started + v);
        assert s'.pipe[i] == s.pipe[i];
      }
    }
  }

  lemma SenderOf(p: Packet, payload: Bytes, worker: Option<nat>)
    ensures Reply(p, payload, worker).worker == worker
  {
  }

  lemma ServeKeepsRoom(s: State, w: nat, payload: Bytes)
    requires RoomInv(s) && w < |s.workers| && DoServe(s, w, payload).Some?
    ensures RoomInv(DoServe(s, w, payload).value)
  {
    var p := s.workers[w].batch[0];
    var s1 := s.(workers := s.workers[w := Serving(s.workers[w].list, s.workers[w].batch[1..])]);
    SameRoom(s, s1);
    hide Send, RoomInv;
    if p.GetType() != SET {
      SendKeepsRoom(s1, w, p, payload);
    } else {
      SameRoom(s, DoServe(s, w, payload).value);
    }
  }

  lemma AnswerKeepsRoom(s: State, w: nat, payload: Bytes)
    requires RoomInv(s) && w < |s.workers| && DoAnswer(s, w, payload).Some?
    ensures RoomInv(DoAnswer(s, w, payload).value)
  {
    hide Encodes, Batch.Covers;
    var batch, answers := s.workers[w].batch, s.workers[w].answers;
    var s1 := s.(workers := s.workers[w := Answering(s.workers[w].list, batch[1..], answers)]);
    SameRoom(s, s1);
    hide Send, RoomInv;
    SendKeepsRoom(s1, w, batch[0], payload);
  }

  lemma SameRoom(s: State, s': State)
    requires RoomInv(s) && s'.pipe == s.pipe && s'.room == s.room && s'.started == s.started
    requires |s'.workers| == |s.workers|
    ensures RoomInv(s')
  {
    forall w: nat | w < |s.workers|
      ensures RoomOf(s', w) > 0 || Unread(s', w)
    {
      assert RoomOf(s, w) > 0 || Unread(s, w);
    }
  }

  lemma ForwardKeepsRoom(s: State, a: Action)
    requires RoomInv(s) && a.Forward? && Next(s, a).Some? && Fair(s, a)
    ensures RoomInv(Next(s, a).value)
  {
    hide Unread;
  }

  lemma RestartHasRoom(s: State, n: nat, capacity: nat)
    requires DoRestart(s, n, capacity).Some? && capacity > 0
    ensures RoomInv(DoRestart(s, n, capacity).value)
  {
    hide Unread;
  }

  lemma ReceiptSameRoom(s: State, a: Action)
    requires (a.ReceiveRouter? || a.ReceiveAsync?) && Next(s, a).Some?
    ensures var s' := Next(s, a).value;
      s'.pipe == s.pipe && s'.room == s.room && s'.started == s.started && |s'.workers| == |s.workers|
  {
    hide Matching, Decodes, Push;
    var p := Arrived(s, a.ReceiveAsync?, a.frames, a.instruction);
    var s1 := Log(s, p, a.frames);
    var s2 := s1.(direct := s.direct + [Reply(p, [], None)]);
    if Push(s1, p, a.wake).Some? { PushFrame(s1, p, a.wake); }
    if Push(s2, p, a.wake).Some? { PushFrame(s2, p, a.wake); }
  }

  lemma OthersSameRoom(s: State, a: Action)
    requires Next(s, a).Some? && !a.Forward? && !a.Restart? && !a.Serve? && !a.Answer?
    ensures var s' := Next(s, a).value;
      s'.pipe == s.pipe && s'.room == s.room && s'.started == s.started && |s'.workers| == |s.workers|
  {
    hide BatchSize, GoodFetch, DoReceiveRouter, DoReceiveAsync, DoServe, DoAnswer;
    if a.ReceiveRouter? || a.ReceiveAsync? {
      ReceiptSameRoom(s, a);
    }
  }

  lemma NextKeepsRoom(s: State, a: Action)
    requires RoomInv(s) && Next(s, a).Some? && Fair(s, a)
    ensures RoomInv(Next(s, a).value)
  {
    if a.Forward? {
      hide Next, RoomInv;
      ForwardKeepsRoom(s, a);
    } else if a.Restart? {
      hide DoRestart, RoomInv;
      RestartHasRoom(s, a.numThreads, a.capacity);
    } else if a.Serve? {
      hide DoServe, RoomInv;
      ServeKeepsRoom(s, a.w, a.payload);
    } else if a.Answer? {
      hide DoAnswer, RoomInv;
      AnswerKeepsRoom(s, a.w, a.payload);
    } else {
      hide Next, RoomInv;
      OthersSameRoom(s, a);
      SameRoom(s, Next(s, a).value);
    }
  }

  /** In every fair run a worker without room has a reply in the pipe. */
  lemma {:induction false} FairRunHasRoom(actions: seq<Action>)
    requires Run(actions).Some? && FairRun(actions)
    ensures RoomInv(Run(actions).value)
    decreases |actions|
  {
    if actions != [] {
      hide Next, RoomInv, Fair;
      FairRunHasRoom(actions[..|actions| - 1]);
      NextKeepsRoom(Run(actions[..|actions| - 1]).value, actions[|actions| - 1]);
    }
  }

  lemma RoomMeansNoJam(s: State)
    requires RoomInv(s)
    ensures !Jammed(s)
  {
    hide RepliesLeft;
  }

  // The sender gets room for one more reply.
  lemma FairRead(s: State) returns (a: Action)
    requires s.dispatcher == Idle && s.pipe != [] && RoomInv(s)
    ensures Internal(a) && Fair(s, a) && Next(s, a).Some?
  {
    var id := s.pipe[0].worker.GetOr(0);
    var w: nat := if id >= s.started then id - s.started else 0;
    a := Forward(0, w, 1);
    var s' := Next(s, a).value;
    assert s'.pipe == s.pipe[1..];
    forall v: nat | v < |s.workers| && Unread(s, v) && !Unread(s', v)
      ensures RoomOf(s', v) > 0
    {
      OnlyFirstRead(s, s', v);
    }
  }

  lemma OnlyFirstRead(s: State, s': State, v: nat)
    requires s.pipe != [] && s'.pipe == s.pipe[1..] && s'.started == s.started
    ensures Unread(s, v) ==> Unread(s', v) || s.pipe[0].worker == Some(s.started + v)
  {
    if Unread(s, v) {
      var i :| 0 <= i < |s.pipe| && s.pipe[i].worker == Some(s.started + v);
      assert i > 0 ==> s'.pipe[i - 1] == s.pipe[i];
    }
  }

  lemma FairStep(s: State) returns (a: Action)
    requires Working(s) && RoomInv(s) && s.workers != [] && !AtRest(s)
    ensures Internal(a) && Fair(s, a) && Next(s, a).Some?
  {
    if s.pipe != [] {
      hide RoomInv;
      a := FairRead(s);
    } else {
      RoomMeansNoJam(s);
      hide Working, Jammed;
      a := SomethingGoesOn(s);
      NothingToRead(s, a);
    }
  }

  lemma NothingToRead(s: State, a: Action)
    requires s.pipe == [] && Internal(a) && Next(s, a).Some?
    ensures Fair(s, a)
  {
    hide DoPop, DoServe, DoFetch, DoAnswer, DoWorker;
  }

  /**
   In every fair run: without new input and spurious wake-ups the router makes a bounded number of
   steps, and until it is at rest another fair one is possible, as long as there is a worker.
   */
  lemma FairRunComesToRest(actions: seq<Action>, more: seq<Action>)
    requires Run(actions).Some? && Run(actions).value.dispatcher == Idle
    requires AllInternal(more) && RunFrom(Run(actions).value, more).Some? && FairRun(actions + more)
    ensures |more| <= Work(Run(actions).value)
    ensures var s := RunFrom(Run(actions).value, more).value;
      AtRest(s) || s.workers == [] || exists a :: Internal(a) && Fair(s, a) && Next(s, a).Some?
  {
    hide Run, RunFrom, Next, Working, Work, Internal, Fair, RoomInv;
    IdleIsWorking(actions);
    WorkRunsOut(Run(actions).value, more);
    var s := RunFrom(Run(actions).value, more).value;
    RunFromContinues(actions, more);
    FairRunHasRoom(actions + more);
    if !AtRest(s) && s.workers != [] {
      var a := FairStep(s);
    }
  }

  // ---------------------------------------------------------------- what rest means

  lemma RestHasNoBatches(s: State)
    requires AtRest(s)
    ensures InBatches(s.workers) == multiset{}
  {
    NoBatches(s.workers);
  }

  /** At rest every GET and increment received has had its one reply forwarded, and every SET is applied. */
  lemma RestMeansServed(actions: seq<Action>, i: nat)
    requires Run(actions).Some? && AtRest(Run(actions).value) && i < |Run(actions).value.received|
    ensures var s := Run(actions).value;
      var p := s.received[i];
      && (p.instruction.getKeys != [] ==> Replies(s, p) == 1)
      && (p.instruction.getKeys == [] && p.instruction.setKeys != [] ==> multiset(s.applied)[p] == 1)
      && (p.instruction.getKeys == [] && p.instruction.setKeys == [] && p.instruction.incrKeys != [] ==>
            Replies(s, p) == 1)
  {
    hide Run, InBatches, Replies;
    var s := Run(actions).value;
    EveryPacketAccounted(actions, i);
    RestHasNoBatches(s);
    assert Origins(s.pipe) == [];
  }
}
