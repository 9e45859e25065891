/**
 Switching the server list.  The dispatcher tells the workers to stop and joins them while it holds
 the server-list mutex: when that wait ends, when it must end, and three ways in which it does not.
 */
module RouterSwitch {
  import opened Wire
  import opened Messages
  import opened WorkQueue
  import opened Router
  import opened RouterLocking
  import Batch
  import MemClient
  import LruCache
  import Envelope

  function RunFrom(s: State, actions: seq<Action>): Option<State>
    decreases |actions|
  {
    if actions == [] then Some(s)
    else
      match Next(s, actions[0])
      case None => None
      case Some(s') => RunFrom(s', actions[1..])
  }

  lemma {:induction false} RunFromContinues(actions: seq<Action>, more: seq<Action>)
    requires Run(actions).Some? && RunFrom(Run(actions).value, more).Some?
    ensures Run(actions + more) == RunFrom(Run(actions).value, more)
    decreases |more|
  {
    hide Next;
    if more == [] {
      assert actions + more == actions;
    } else {
      var actions' := actions + [more[0]];
      assert actions'[..|actions|] == actions;
      RunFromContinues(actions', more[1..]);
      assert actions + more == actions' + more[1..];
    }
  }

  // ---------------------------------------------------------------- the flags

  predicate DoneInv(s: State) {
    && (s.dispatcher != Idle ==> s.done)
    && (s.dispatcher.Unblocking? || s.dispatcher.Joining? ==> s.queueDone)
  }

  lemma NextDone(s: State, a: Action)
    requires DoneInv(s) && Next(s, a).Some?
    ensures DoneInv(Next(s, a).value)
  {
    hide NotifyOne, BatchSize, Matching, Decodes, DoServe, DoFetch, DoAnswer;
    if a.Serve? || a.Fetch? || a.Answer? {
      BatchStepsGoOn(s, a);
    }
  }

  lemma {:induction false} FlagsHold(actions: seq<Action>)
    requires Run(actions).Some?
    ensures DoneInv(Run(actions).value)
    decreases |actions|
  {
    if actions != [] {
      hide Next, DoneInv;
      FlagsHold(actions[..|actions| - 1]);
      NextDone(Run(actions[..|actions| - 1]).value, actions[|actions| - 1]);
    }
  }

  predicate Closing(s: State) {
    s.dispatcher.Joining? && DoneInv(s) && LockInv(s) && WakeInv(s) && BatchInv(s)
  }

  lemma JoiningIsClosing(actions: seq<Action>)
    requires Run(actions).Some? && Run(actions).value.dispatcher.Joining?
    ensures Closing(Run(actions).value)
  {
    hide Run, DoneInv, LockInv, WakeInv, BatchInv;
    FlagsHold(actions);
    NoLostWakeUp(actions);
    BatchesServable(actions);
  }

  lemma NextCloses(s: State, a: Action)
    requires Closing(s) && Next(s, a).Some? && Next(s, a).value.dispatcher.Joining?
    ensures Closing(Next(s, a).value)
  {
    hide Next, DoneInv, LockInv, WakeInv, BatchInv;
    NextDone(s, a);
    NextKeeps(s, a);
    NextServable(s, a);
  }

  // ---------------------------------------------------------------- workers that cannot exit

  // The replies a worker has still to send; a SET is alone in its batch and has none.
  function RepliesLeft(w: Worker): nat {
    match w
    case Serving(_, batch) => if batch != [] && batch[0].GetType() == SET then 0 else |batch|
    case Answering(_, batch, _) => |batch|
    case _ => 0
  }

  /**
   A worker that has yet to read the list waits for the mutex the dispatcher holds; one that blocks
   after the notification waits for a spurious wake-up; one with more replies than the pipe has room
   for waits for the dispatcher to read them.
   */
  predicate Free(s: State, i: nat, spurious: bool)
    requires i < |s.workers|
  {
    Awake(s.workers[i], spurious) && RepliesLeft(s.workers[i]) <= RoomOf(s, i)
  }

  predicate Awake(w: Worker, spurious: bool) {
    !w.Starting? && (spurious || !(w.AboutToWait? || w.Waiting?))
  }

  predicate AllFree(s: State, spurious: bool) {
    forall i :: 0 <= i < |s.workers| ==> Free(s, i, spurious)
  }

  predicate Allowed(actions: seq<Action>, spurious: bool) {
    spurious || forall i :: 0 <= i < |actions| ==> !actions[i].SpuriousWake?
  }

  // ---------------------------------------------------------------- every step brings the end nearer

  // How many steps a worker has left at most.
  function Rank(w: Worker): nat {
    match w
    case Exited => 0
    case Top(_) => 1
    case Serving(_, batch) => if batch == [] then 2 else 3 + |batch|
    case Answering(_, batch, _) => 2 + |batch|
    case Ready(_) => 3
    case AtPop(_) => 4
    case Signalled(_) => 4
    case Waiting(_) => 5
    case AboutToWait(_) => 6
    case Starting => 7
  }

  function Total(workers: seq<Worker>): nat {
    if workers == [] then 0 else Rank(workers[0]) + Total(workers[1..])
  }

  lemma {:induction false} TotalUpdate(workers: seq<Worker>, i: nat, w: Worker)
    requires i < |workers|
    ensures Total(workers[i := w]) == Total(workers) - Rank(workers[i]) + Rank(w)
    decreases |workers|
  {
    hide Rank;
    var workers' := workers[i := w];
    if i == 0 {
      assert workers'[1..] == workers[1..];
    } else {
      TotalUpdate(workers[1..], i - 1, w);
      assert workers'[1..] == workers[1..][i - 1 := w];
    }
  }

  // The worker an action belongs to; none for the dispatcher's actions.
  predicate OfWorker(a: Action) {
    !a.ReceiveRouter? && !a.ReceiveAsync? && !a.Forward? && !a.SetQueueDone? && !a.NotifyAll? && !a.Restart?
  }

  // In a join only workers act.
  lemma JoinActions(s: State, a: Action)
    requires s.dispatcher.Joining? && Next(s, a).Some? && !a.Restart?
    ensures OfWorker(a) && a.w < |s.workers|
  {
    hide Push, Matching, Decodes, DoPop, DoServe, DoFetch, DoAnswer, DoWorker;
  }

  // Only worker w changes, and it comes nearer to its exit.
  predicate Sinks(s: State, a: Action, s': State, w: nat, spurious: bool)
    requires w < |s.workers|
  {
    && s'.dispatcher == s.dispatcher
    && |s'.workers| == |s.workers| && s'.workers == s.workers[w := s'.workers[w]]
    && Rank(s'.workers[w]) < Rank(s.workers[w])
    && (Awake(s.workers[w], spurious) ==> Awake(s'.workers[w], spurious))
    && (Awake(s'.workers[w], spurious) && (spurious || !a.SpuriousWake?) ==> Awake(s.workers[w], spurious))
  }

  lemma ServeSinks(s: State, a: Action, spurious: bool)
    requires a.Serve? && Next(s, a).Some? && a.w < |s.workers|
    ensures Sinks(s, a, Next(s, a).value, a.w, spurious)
  {
    hide DoFetch, DoAnswer;
  }

  lemma FetchSinks(s: State, a: Action, spurious: bool)
    requires a.Fetch? && Next(s, a).Some? && a.w < |s.workers|
    ensures Sinks(s, a, Next(s, a).value, a.w, spurious)
  {
    hide DoServe, DoAnswer, GoodFetch, AllGets;
  }

  lemma AnswerSinks(s: State, a: Action, spurious: bool)
    requires a.Answer? && Next(s, a).Some? && a.w < |s.workers|
    ensures Sinks(s, a, Next(s, a).value, a.w, spurious)
  {
    hide DoServe, DoFetch, Encodes, Batch.Covers;
  }

  lemma OtherStepSinks(s: State, a: Action, spurious: bool)
    requires OfWorker(a) && !a.Serve? && !a.Fetch? && !a.Answer?
    requires Closing(s) && Next(s, a).Some? && a.w < |s.workers|
    ensures Sinks(s, a, Next(s, a).value, a.w, spurious)
  {
    hide NotifyOne, BatchSize, LockInv, WakeInv, BatchInv, DoServe, DoFetch, DoAnswer;
  }

  lemma WorkerSinks(s: State, a: Action, spurious: bool)
    requires Closing(s) && Next(s, a).Some? && !a.Restart?
    ensures OfWorker(a) && a.w < |s.workers|
    ensures Sinks(s, a, Next(s, a).value, a.w, spurious)
  {
    JoinOf(s);
    hide Next, Closing, Sinks;
    JoinActions(s, a);
    if a.Serve? {
      ServeSinks(s, a, spurious);
    } else if a.Fetch? {
      FetchSinks(s, a, spurious);
    } else if a.Answer? {
      AnswerSinks(s, a, spurious);
    } else {
      OtherStepSinks(s, a, spurious);
    }
  }

  // A reply sent takes up the room it needed.
  ghost predicate KeepsUp(s: State, s': State, w: nat)
    requires w < |s.workers|
  {
    && |s'.workers| == |s.workers|
    && (forall i :: i != w ==> RoomOf(s', i) == RoomOf(s, i))
    && (RepliesLeft(s'.workers[w]) <= RoomOf(s', w) <==> RepliesLeft(s.workers[w]) <= RoomOf(s, w))
  }

  lemma BatchStepKeepsUp(s: State, a: Action)
    requires (a.Serve? || a.Fetch? || a.Answer?) && Next(s, a).Some? && a.w < |s.workers| && Servable(s.workers[a.w])
    ensures KeepsUp(s, Next(s, a).value, a.w)
  {
    hide GoodFetch, Encodes, Batch.Covers;
  }

  lemma OtherStepKeepsUp(s: State, a: Action)
    requires OfWorker(a) && !a.Serve? && !a.Fetch? && !a.Answer?
    requires Closing(s) && Next(s, a).Some? && a.w < |s.workers|
    ensures KeepsUp(s, Next(s, a).value, a.w)
  {
    hide NotifyOne, BatchSize, LockInv, WakeInv, BatchInv, DoServe, DoFetch, DoAnswer;
  }

  lemma RoomKeepsUp(s: State, a: Action)
    requires Closing(s) && Next(s, a).Some? && OfWorker(a) && a.w < |s.workers|
    ensures KeepsUp(s, Next(s, a).value, a.w)
  {
    assert Servable(s.workers[a.w]);
    hide Next, Closing, KeepsUp, Servable;
    if a.Serve? || a.Fetch? || a.Answer? {
      BatchStepKeepsUp(s, a);
    } else {
      OtherStepKeepsUp(s, a);
    }
  }

  lemma StepSinks(s: State, a: Action, spurious: bool)
    requires Closing(s) && Next(s, a).Some? && !a.Restart?
    ensures var s' := Next(s, a).value;
      && s'.dispatcher == s.dispatcher && Closing(s')
      && Total(s'.workers) < Total(s.workers)
      && |s'.workers| == |s.workers|
      && (forall i :: 0 <= i < |s.workers| && Free(s, i, spurious) ==> Free(s', i, spurious))
      && (spurious || !a.SpuriousWake? ==>
            forall i :: 0 <= i < |s.workers| && Free(s', i, spurious) ==> Free(s, i, spurious))
  {
    hide Next, Closing, Rank, Awake, RepliesLeft, RoomOf;
    WorkerSinks(s, a, spurious);
    RoomKeepsUp(s, a);
    JoinOf(s);
    var s' := Next(s, a).value;
    NextCloses(s, a);
    TotalUpdate(s.workers, a.w, s'.workers[a.w]);
  }

  lemma JoinOf(s: State)
    requires Closing(s)
    ensures s.dispatcher.Joining?
  {
  }

  // ---------------------------------------------------------------- stuck for ever

  lemma StuckIsThere(s: State, i: nat, spurious: bool)
    requires i < |s.workers| && !Free(s, i, spurious)
    ensures !AllExited(s.workers)
  {
    assert !s.workers[i].Exited?;
  }

  lemma JoinersOnlyRestart(s: State, a: Action)
    requires Closing(s) && !AllExited(s.workers) && Next(s, a).Some?
    ensures !a.Restart?
  {
  }

  lemma {:induction false} StuckForEver(s: State, more: seq<Action>, i: nat, spurious: bool)
    requires Closing(s) && i < |s.workers| && !Free(s, i, spurious)
    requires Allowed(more, spurious) && RunFrom(s, more).Some?
    ensures RunFrom(s, more).value.dispatcher.Joining?
    decreases |more|
  {
    JoinOf(s);
    hide Next, Closing, Free, AllExited;
    if more != [] {
      StuckIsThere(s, i, spurious);
      JoinersOnlyRestart(s, more[0]);
      StepSinks(s, more[0], spurious);
      StuckForEver(Next(s, more[0]).value, more[1..], i, spurious);
    }
  }

  // ---------------------------------------------------------------- some step is possible

  /** The client can always be answered, if only by a store that holds nothing. */
  lemma SomeFetch(batch: seq<Packet>) returns (f: Fetched)
    ensures f.batch == batch && GoodFetch(f)
  {
    hide MemClient.Probe;
    var wanted := Batch.Wanted(Instructions(batch));
    var keys := MemClient.InSomeOrder(wanted);
    var cfg := MemClient.Config(_ => 0, LruCache.Params(0, 0));
    MemClient.ProbeWithoutCache(cfg, wanted, [], keys);
    f := Fetched(batch, cfg, None, map[], keys, [], wanted);
  }

  lemma ServeStep(s: State, i: nat) returns (a: Action)
    requires i < |s.workers| && s.workers[i].Serving? && s.workers[i].batch != [] && Servable(s.workers[i])
    requires RepliesLeft(s.workers[i]) > 0 ==> RoomOf(s, i) > 0
    ensures !a.SpuriousWake? && OfWorker(a) && Next(s, a).Some?
  {
    hide GoodFetch;
    var batch := s.workers[i].batch;
    if AllGets(batch) {
      var f := SomeFetch(batch);
      a := Fetch(i, f);
    } else {
      a := Serve(i, []);
    }
  }

  lemma AnswerStep(s: State, i: nat) returns (a: Action)
    requires i < |s.workers| && s.workers[i].Answering? && s.workers[i].batch != [] && Servable(s.workers[i])
    requires RoomOf(s, i) > 0
    ensures !a.SpuriousWake? && OfWorker(a) && Next(s, a).Some?
  {
    hide ValidInstruction, SerializeInstruction, Batch.Answered, Batch.Covers;
    var p, answers := s.workers[i].batch[0], s.workers[i].answers;
    var answer := Batch.Answered(p.instruction, answers);
    a := Answer(i, if Sendable(answer) then SerializeInstruction(answer) else []);
  }

  lemma BusyStep(s: State, i: nat) returns (a: Action)
    requires i < |s.workers| && Busy(s.workers[i]) && Servable(s.workers[i])
    requires RepliesLeft(s.workers[i]) > 0 ==> RoomOf(s, i) > 0
    ensures !a.SpuriousWake? && OfWorker(a) && Next(s, a).Some?
  {
    if s.workers[i].batch == [] {
      a := FinishBatch(i);
    } else if s.workers[i].Serving? {
      a := ServeStep(s, i);
    } else {
      a := AnswerStep(s, i);
    }
  }

  lemma LockedStep(s: State) returns (a: Action)
    requires Closing(s) && s.lock.Some?
    ensures !a.SpuriousWake? && !a.Restart? && Next(s, a).Some?
  {
    hide BatchInv, WakeInv, NotifyOne, BatchSize;
    var h := s.lock.value;
    assert HoldsLock(s.workers[h]);
    a := if s.workers[h].Ready? then Pop(h, 0) else Block(h);
  }

  lemma UnlockedStep(s: State, spurious: bool) returns (a: Action)
    requires Closing(s) && AllFree(s, spurious) && !AllExited(s.workers) && s.lock.None?
    ensures (spurious || !a.SpuriousWake?) && !a.Restart? && Next(s, a).Some?
  {
    hide Servable, WakeInv;
    var i :| 0 <= i < |s.workers| && !s.workers[i].Exited?;
    var w := s.workers[i];
    assert Free(s, i, spurious);
    assert !HoldsLock(w);
    match w
    case Top(_) => a := TestDone(i);
    case AtPop(_) => a := LockQueue(i);
    case Signalled(_) => a := LockQueue(i);
    case Waiting(_) => a := SpuriousWake(i);
    case Serving(_, _) => a := BusyStep(s, i);
    case Answering(_, _, _) => a := BusyStep(s, i);
  }

  lemma SomeStep(s: State, spurious: bool) returns (a: Action)
    requires Closing(s) && AllFree(s, spurious) && !AllExited(s.workers)
    ensures (spurious || !a.SpuriousWake?) && !a.Restart? && Next(s, a).Some?
  {
    hide Next, Closing, AllFree;
    if s.lock.Some? {
      a := LockedStep(s);
    } else {
      a := UnlockedStep(s, spurious);
    }
  }

  lemma CanRestart(s: State, capacity: nat)
    requires Closing(s) && AllExited(s.workers)
    ensures Next(s, Restart(1, capacity)).Some? && Next(s, Restart(1, capacity)).value.dispatcher == Idle
  {
  }

  // ---------------------------------------------------------------- when the switch completes

  ghost predicate Completes(s: State, more: seq<Action>, spurious: bool) {
    Allowed(more, spurious) && RunFrom(s, more).Some? && RunFrom(s, more).value.dispatcher == Idle
  }

  lemma {:induction false} CompleteFrom(s: State, spurious: bool) returns (more: seq<Action>)
    requires Closing(s) && AllFree(s, spurious)
    ensures Completes(s, more, spurious)
    decreases Total(s.workers)
  {
    hide Next, Closing, Free, AllExited;
    if AllExited(s.workers) {
      CanRestart(s, 0);
      more := [Restart(1, 0)];
      assert RunFrom(Next(s, more[0]).value, more[1..]) == Next(s, more[0]);
    } else {
      var a := SomeStep(s, spurious);
      StepSinks(s, a, spurious);
      var rest := CompleteFrom(Next(s, a).value, spurious);
      more := [a] + rest;
      assert more[1..] == rest;
    }
  }

  /**
   In every reachable state in which the dispatcher joins its workers, the switch can complete
   exactly when no worker has yet to read the list, the pipe has room for all replies each of them
   has left and, spurious wake-ups aside, none blocks after the notification.
   */
  lemma SwitchCompletesIff(actions: seq<Action>, spurious: bool)
    requires Run(actions).Some? && Run(actions).value.dispatcher.Joining?
    ensures var s := Run(actions).value;
      (exists more :: Completes(s, more, spurious)) <==>
        forall i :: 0 <= i < |s.workers| ==>
          && !s.workers[i].Starting?
          && (spurious || !(s.workers[i].AboutToWait? || s.workers[i].Waiting?))
          && RepliesLeft(s.workers[i]) <= RoomOf(s, i)
  {
    hide Run, Next, Closing, RunFrom, RepliesLeft, RoomOf;
    var s := Run(actions).value;
    JoiningIsClosing(actions);
    if AllFree(s, spurious) {
      var more := CompleteFrom(s, spurious);
      forall i | 0 <= i < |s.workers|
        ensures Awake(s.workers[i], spurious) && RepliesLeft(s.workers[i]) <= RoomOf(s, i)
      {
        assert Free(s, i, spurious);
      }
    } else {
      var i :| 0 <= i < |s.workers| && !Free(s, i, spurious);
      forall more
        ensures !Completes(s, more, spurious)
      {
        if Completes(s, more, spurious) {
          StuckForEver(s, more, i, spurious);
        }
      }
    }
  }

  // A continuation in which the dispatcher goes on joining.
  ghost predicate JoinsOn(s: State, more: seq<Action>)
    decreases |more|
  {
    more == [] || (!more[0].Restart? && Next(s, more[0]).Some? && JoinsOn(Next(s, more[0]).value, more[1..]))
  }

  lemma {:induction false} JoinSinks(s: State, more: seq<Action>, spurious: bool)
    requires Closing(s) && JoinsOn(s, more)
    ensures RunFrom(s, more).Some?
    ensures var s' := RunFrom(s, more).value;
      && Closing(s') && |more| + Total(s'.workers) <= Total(s.workers)
      && (AllFree(s, spurious) ==> AllFree(s', spurious))
    decreases |more|
  {
    hide Next, Closing, Free;
    if more != [] {
      StepSinks(s, more[0], spurious);
      JoinSinks(Next(s, more[0]).value, more[1..], spurious);
    }
  }

  /**
   The join lasts a bounded number of steps whatever the interleaving, and where no worker is
   stuck, the system can go on at each of them: the switch completes, whoever is scheduled.
   */
  lemma SwitchMustComplete(actions: seq<Action>, more: seq<Action>)
    requires Run(actions).Some? && Run(actions).value.dispatcher.Joining?
    requires JoinsOn(Run(actions).value, more)
    ensures |more| <= Total(Run(actions).value.workers)
    ensures RunFrom(Run(actions).value, more).Some?
    ensures AllFree(Run(actions).value, false) ==>
      var s := RunFrom(Run(actions).value, more).value;
      exists a: Action ::
        !a.SpuriousWake? && Next(s, a).Some? && (AllExited(s.workers) ==> Next(s, a).value.dispatcher == Idle)
  {
    hide Run, Next, Closing, RunFrom, AllFree, AllExited;
    var s0 := Run(actions).value;
    JoiningIsClosing(actions);
    JoinSinks(s0, more, false);
    var s := RunFrom(s0, more).value;
    if AllFree(s0, false) {
      if AllExited(s.workers) {
        CanRestart(s, 0);
      } else {
        var a := SomeStep(s, false);
      }
    }
  }

  // ---------------------------------------------------------------- runs that hang

  lemma Do(actions: seq<Action>, s: State, a: Action) returns (actions': seq<Action>, s': State)
    requires Run(actions) == Some(s) && Next(s, a).Some?
    ensures Run(actions') == Some(s') && Some(s') == Next(s, a)
  {
    hide Next;
    actions', s' := actions + [a], Next(s, a).value;
    assert actions'[..|actions|] == actions;
  }

  function ListOf(port: int): Instruction {
    EmptyInstruction.(servers := [At(port)])
  }

  lemma ListOfValid(port: int)
    requires 0 <= port < TWO_31
    ensures ValidInstruction(ListOf(port))
  {
    var s := At(port);
    assert ServerRecord(s) == map[2 := Num(port)];
    assert ValidServer(s);
    hide SerializeFrom, EncodeVarint, VarintSize;
    SoleFieldFrom(ServerSchema, 2, Num(port), 1);
    VarintSizeIsLength(port);
    VarintSizeIsLength(16);
    assert |SerializeServer(s)| <= 20 by {
      VarintSizeBound(port);
      VarintSizeBound(16);
    }
  }

  lemma VarintSizeBound(n: nat)
    ensures VarintSize(n) <= 10
  {
  }

  // A server list as it comes in, without return address.
  lemma Message(port: int) returns (frames: seq<Bytes>)
    requires 0 <= port < TWO_31
    ensures Envelope.LeadingIds(frames) == 0 && Decodes(Envelope.DataFrame(frames, true), ListOf(port))
  {
    hide ValidInstruction, SerializeInstruction, ParseInstruction;
    ListOfValid(port);
    InstructionRoundTrip(ListOf(port));
    frames := [[], SerializeInstruction(ListOf(port))];
  }

  predicate Quiet(s: State) {
    s.queue == [] && s.pipe == [] && forall i :: 0 <= i < |s.workers| ==> !s.workers[i].Waiting?
  }

  /** A server list other than the one in force takes the dispatcher into the join. */
  lemma Switch(actions: seq<Action>, s: State, port: int) returns (actions': seq<Action>, s': State)
    requires Run(actions) == Some(s) && Quiet(s) && s.dispatcher == Idle && 0 <= port < TWO_31
    requires s.serverList.None? || (s.serverList == Some(ListOf(1)) && port != 1)
    ensures Run(actions') == Some(s') && s'.dispatcher.Joining? && s'.dispatcher.p.instruction == ListOf(port)
    ensures Quiet(s') && s'.workers == s.workers && s'.queueDone && s'.lock == s.lock && s'.room == s.room
  {
    hide Run, Decodes, Envelope.LeadingIds, Envelope.DataFrame;
    var frames := Message(port);
    actions', s' := Do(actions, s, ReceiveRouter(frames, ListOf(port), [], 0));
    actions', s' := Do(actions', s', SetQueueDone);
    var before := s'.workers;
    actions', s' := Do(actions', s', NotifyAll);
    assert s'.workers == before;
  }

  /** One worker has been started and has not read the list yet. */
  lemma ReachStarting(capacity: nat) returns (actions: seq<Action>, s: State)
    ensures Run(actions) == Some(s) && Quiet(s) && s.dispatcher == Idle && s.serverList == Some(ListOf(1))
    ensures s.workers == [Starting] && s.room == [capacity] && !s.done && !s.queueDone && s.lock.None?
  {
    actions, s := Switch([], Initial, 1);
    hide Run;
    actions, s := Do(actions, s, Restart(1, capacity));
    assert s.workers == [Starting] && s.room == [capacity];
  }

  /**
   Two server lists in quick succession: the second one is put in force while the worker started
   for the first is still waiting for the server-list mutex.  Nothing can move the system again.
   */
  lemma SwitchCanDeadlock() returns (actions: seq<Action>, s: State)
    ensures Run(actions) == Some(s) && s.dispatcher.Joining?
    ensures forall a :: Next(s, a).None?
  {
    hide Run;
    actions, s := ReachStarting(1000);
    actions, s := Switch(actions, s, 2);
    forall a
      ensures Next(s, a).None?
    {
      NothingPossible(s, a);
    }
  }

  lemma NothingPossible(s: State, a: Action)
    requires s.dispatcher.Joining? && s.workers == [Starting]
    ensures Next(s, a).None?
  {
    assert s.workers[0].Starting?;
    assert !AllExited(s.workers);
    hide NotifyOne, BatchSize, Matching, Decodes, GoodFetch, Encodes, AllExited;
  }

  lemma ReachTop(capacity: nat) returns (actions: seq<Action>, s: State)
    ensures Run(actions) == Some(s) && Quiet(s) && s.dispatcher == Idle && s.serverList == Some(ListOf(1))
    ensures |s.workers| == 1 && s.workers[0].Top? && s.room == [capacity] && !s.done && !s.queueDone && s.lock.None?
  {
    hide Run;
    actions, s := ReachStarting(capacity);
    actions, s := Do(actions, s, ReadList(0));
  }

  /** One worker has found the queue empty and is about to block. */
  lemma ReachAboutToWait() returns (actions: seq<Action>, s: State)
    ensures Run(actions) == Some(s) && Quiet(s) && s.dispatcher == Idle && s.serverList == Some(ListOf(1))
    ensures |s.workers| == 1 && s.workers[0].AboutToWait?
  {
    hide Run;
    actions, s := ReachTop(1000);
    actions, s := Do(actions, s, TestDone(0));
    actions, s := Do(actions, s, LockQueue(0));
  }

  // A request for one key.
  function Ask(): Instruction { EmptyInstruction.(getKeys := [EmptyKv]) }

  lemma AskValid()
    ensures ValidInstruction(Ask())
  {
    assert KvRecord(EmptyKv) == map[];
    hide SerializeFrom;
    NoFieldFrom(KvSchema, 1);
  }

  lemma {:induction false} NoFieldFrom(schema: Schema, from: nat)
    requires ValidSchema(schema)
    ensures SerializeFrom(schema, map[], from) == []
    decreases MAX_FIELD + 1 - from
  {
    if from <= MAX_FIELD {
      NoFieldFrom(schema, from + 1);
    }
  }

  lemma AskFrames() returns (frames: seq<Bytes>)
    ensures Decodes(Envelope.DataFrame(frames, true), Ask())
  {
    hide ValidInstruction, SerializeInstruction, ParseInstruction;
    AskValid();
    InstructionRoundTrip(Ask());
    frames := [[], SerializeInstruction(Ask())];
  }

  predicate AskedOnly(queue: seq<Packet>) {
    forall i :: 0 <= i < |queue| ==> queue[i].instruction == Ask()
  }

  // One worker at the loop test, nothing else going on.
  predicate OneAtTop(s: State, capacity: nat) {
    && s.dispatcher == Idle && s.serverList == Some(ListOf(1)) && s.pipe == [] && s.room == [capacity]
    && |s.workers| == 1 && s.workers[0].Top? && !s.done && !s.queueDone && s.lock.None?
  }

  /** n requests queue up. */
  lemma {:induction false} ReachQueued(capacity: nat, n: nat) returns (actions: seq<Action>, s: State)
    ensures Run(actions) == Some(s) && OneAtTop(s, capacity) && |s.queue| == n && AskedOnly(s.queue)
    decreases n
  {
    hide Run;
    if n == 0 {
      actions, s := ReachTop(capacity);
    } else {
      hide Decodes;
      actions, s := ReachQueued(capacity, n - 1);
      var frames := AskFrames();
      actions, s := Do(actions, s, ReceiveRouter(frames, Ask(), [], 0));
    }
  }

  lemma {:induction false} AskedTotal(queue: seq<Packet>)
    requires AskedOnly(queue)
    ensures KeyTotal(queue) == |queue|
    decreases |queue|
  {
    if queue != [] {
      AskedTotal(queue[..|queue| - 1]);
    }
  }

  lemma AskedBatch(queue: seq<Packet>)
    requires AskedOnly(queue) && 0 < |queue| <= MAX_KEYS_PER_REQUEST
    ensures BatchSize(queue) == |queue|
  {
    hide KeyTotal, BatchSize;
    var n := BatchSize(queue);
    AskedTotal(queue[..|queue| - 1]);
    AskedTotal(queue[..n]);
    assert queue[..|queue|] == queue;
    BatchSizeIsUnique(queue, n, |queue|);
  }

  /** One worker has taken n requests. */
  lemma ReachServing(capacity: nat, n: nat) returns (actions: seq<Action>, s: State)
    requires 0 < n <= MAX_KEYS_PER_REQUEST
    ensures Run(actions) == Some(s) && Quiet(s) && s.dispatcher == Idle && s.serverList == Some(ListOf(1))
    ensures |s.workers| == 1 && s.workers[0].Serving? && |s.workers[0].batch| == n && s.room == [capacity]
    ensures AskedOnly(s.workers[0].batch)
  {
    hide Run, BatchSize;
    actions, s := ReachQueued(capacity, n);
    AskedBatch(s.queue);
    actions, s := Do(actions, s, TestDone(0));
    actions, s := Do(actions, s, LockQueue(0));
    actions, s := Do(actions, s, Pop(0, 0));
  }

  /**
   Nobody reads the pipe during the join: a worker with more replies left than the pipe takes
   blocks in a send, and the switch cannot complete, whatever happens.
   */
  lemma SwitchCanJam(capacity: nat) returns (actions: seq<Action>, s: State)
    requires capacity < MAX_KEYS_PER_REQUEST
    ensures Run(actions) == Some(s) && s.dispatcher.Joining? && s.room == [capacity]
    ensures !exists more :: Completes(s, more, true)
  {
    hide Run, AskedOnly;
    actions, s := ReachServing(capacity, capacity + 1);
    var batch := s.workers[0].batch;
    FirstAsks(batch);
    actions, s := Switch(actions, s, 2);
    assert s.workers[0].batch == batch;
    hide Completes;
    SwitchCompletesIff(actions, true);
  }

  lemma FirstAsks(batch: seq<Packet>)
    requires AskedOnly(batch) && batch != []
    ensures batch[0].GetType() == GET
  {
  }

  /**
   The flag is set and everyone notified outside the queue mutex: a worker that has tested the
   flag but not yet blocked misses the notification.  The dispatcher then waits for it for ever,
   and nothing but a spurious wake-up can move the system again.
   */
  lemma SwitchCanHang() returns (actions: seq<Action>, s: State)
    ensures Run(actions) == Some(s) && s.dispatcher.Joining?
    ensures forall a :: Next(s, a).Some? ==> a == SpuriousWake(0)
  {
    hide Run;
    actions, s := ReachAboutToWait();
    actions, s := Switch(actions, s, 2);
    actions, s := Do(actions, s, Block(0));
    assert |s.workers| == 1 && s.workers[0].Waiting?;
    forall a | Next(s, a).Some?
      ensures a == SpuriousWake(0)
    {
      OnlySpurious(s, a);
    }
  }

  lemma OnlySpurious(s: State, a: Action)
    requires s.dispatcher.Joining? && |s.workers| == 1 && s.workers[0].Waiting? && Next(s, a).Some?
    ensures a == SpuriousWake(0)
  {
    assert !AllExited(s.workers);
    NothingReceived(s, a);
    WaitingServesNothing(s, 0, a);
    hide DoReceiveRouter, DoReceiveAsync, DoForward, DoPop, DoServe, DoFetch, DoAnswer, AllExited;
  }

  lemma NothingReceived(s: State, a: Action)
    requires s.dispatcher.Joining?
    ensures a.ReceiveRouter? || a.ReceiveAsync? || a.Forward? ==> Next(s, a).None?
  {
    hide Push, Matching, Decodes;
  }

  lemma WaitingServesNothing(s: State, w: nat, a: Action)
    requires w < |s.workers| && s.workers[w].Waiting?
    ensures (a.Pop? || a.Serve? || a.Fetch? || a.Answer?) && a.w == w ==> Next(s, a).None?
  {
    hide NotifyOne, BatchSize, GoodFetch, Encodes;
  }
}
