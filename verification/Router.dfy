/**
 The router as a step system: a dispatcher thread, the shared queue with its mutex and condition
 variable, the worker threads and the pipe that carries their replies back.  A step is what one
 thread does between two points where another thread can interfere; sending on a socket is merged
 with the lock acquisition that follows it, and one read of the client is one step.  `room` is how
 many more replies each worker's socket takes before sending blocks; reading the pipe gives back
 room as the messaging library sees fit.  `started` counts the workers of earlier lists.  `inbox`,
 `received`, `pushed`, `popped`, `fetches`, `applied`, `sent`, `direct` and `forwarded` record the
 history of the run.
 */
module Router {
  import opened Wire
  import opened Messages
  import opened WorkQueue
  import Envelope
  import Batch
  import MemClient

  datatype Worker =
    | Starting                                  // has yet to read the server list
    | Top(list: Instruction)                    // at the loop test
    | AtPop(list: Instruction)                  // about to lock the queue
    | AboutToWait(list: Instruction)            // holds the lock, found nothing to do
    | Waiting(list: Instruction)                // blocked on the condition variable
    | Signalled(list: Instruction)              // woken, has to take the lock again
    | Ready(list: Instruction)                  // holds the lock, has left the wait loop
    | Serving(list: Instruction, batch: seq<Packet>)
    | Answering(list: Instruction, batch: seq<Packet>, answers: MemClient.Request)
    | Exited

  // The dispatcher holds the server-list mutex in every state but Idle.
  datatype Dispatcher = Idle | Stopping(p: Packet) | Unblocking(p: Packet) | Joining(p: Packet)

  // `worker` numbers the workers ever started; None is the dispatcher.
  datatype Response = Response(origin: Packet, frames: seq<Bytes>, worker: Option<nat>)

  // One read for a whole batch: the cache and the store as the client found them, the order in
  // which it went through the keys, the order in which results arrived, and what came out.
  datatype Fetched = Fetched(
    batch: seq<Packet>, cfg: MemClient.Config, cache: Option<MemClient.Buckets>, store: MemClient.Store,
    keys: seq<Bytes>, arrival: seq<Bytes>, answers: MemClient.Request)

  datatype State = State(
    queue: seq<Packet>, lock: Option<nat>, done: bool, queueDone: bool,
    workers: seq<Worker>, dispatcher: Dispatcher, serverList: Option<Instruction>,
    pipe: seq<Response>, room: seq<nat>, started: nat,
    inbox: seq<seq<Bytes>>, received: seq<Packet>, pushed: seq<Packet>, popped: seq<seq<Packet>>,
    fetches: seq<Fetched>, applied: seq<Packet>, sent: seq<Packet>,
    direct: seq<Response>, forwarded: seq<Response>)

  const Initial := State([], None, false, false, [], Idle, None, [], [], 0, [], [], [], [], [], [], [], [], [])

  datatype Action =
    | ReceiveRouter(frames: seq<Bytes>, instruction: Instruction, payload: Bytes, wake: nat)
    | ReceiveAsync(frames: seq<Bytes>, instruction: Instruction, wake: nat)
    | Forward(i: nat, w: nat, granted: nat)
    | SetQueueDone
    | NotifyAll
    | Restart(numThreads: nat, capacity: nat)
    | ReadList(w: nat)
    | TestDone(w: nat)
    | LockQueue(w: nat)
    | Block(w: nat)
    | SpuriousWake(w: nat)
    | Pop(w: nat, wake: nat)
    | Serve(w: nat, payload: Bytes)
    | Fetch(w: nat, fetched: Fetched)
    | Answer(w: nat, payload: Bytes)
    | FinishBatch(w: nat)

  // ---------------------------------------------------------------- server lists

  // None: the loop reads past the end of the new list.
  function MatchFrom(current: seq<Server>, proposed: seq<Server>, i: nat): Option<bool>
    decreases |current| - i
  {
    if i >= |current| then Some(true)
    else if i >= |proposed| then None
    else if !SameServer(current[i], proposed[i]) then Some(false)
    else MatchFrom(current, proposed, i + 1)
  }

  function Matching(inForce: Option<Instruction>, p: Instruction): Option<bool> {
    if inForce.None? then Some(false) else MatchFrom(inForce.value.servers, p.servers, 0)
  }

  predicate SameServer(a: Server, b: Server) {
    a.Host() == b.Host() && a.Port() == b.Port()
  }

  predicate SameServers(a: seq<Server>, b: seq<Server>) {
    |a| == |b| && forall i :: 0 <= i < |a| ==> SameServer(a[i], b[i])
  }

  // `long` is `short` with servers added at the end.
  predicate Extends(short: seq<Server>, long: seq<Server>) {
    |short| < |long| && SameServers(short, long[..|short|])
  }

  // Whether the lists agree from place i to the end of the shorter one.
  predicate AgreeFrom(a: seq<Server>, b: seq<Server>, i: nat) {
    forall j :: i <= j < |a| && j < |b| ==> SameServer(a[j], b[j])
  }

  /** What the comparison reports, and when it reads past the end of the new list. */
  lemma {:induction false} MatchFromMeans(current: seq<Server>, proposed: seq<Server>, i: nat)
    requires i <= |current| && i <= |proposed|
    ensures MatchFrom(current, proposed, i) == Some(true) <==>
      |current| <= |proposed| && AgreeFrom(current, proposed, i)
    ensures MatchFrom(current, proposed, i) == None <==>
      |proposed| < |current| && AgreeFrom(current, proposed, i)
    decreases |current| - i
  {
    hide SameServer;
    if i < |current| && i < |proposed| {
      MatchFromMeans(current, proposed, i + 1);
      assert AgreeFrom(current, proposed, i) <==>
        SameServer(current[i], proposed[i]) && AgreeFrom(current, proposed, i + 1);
    }
  }

  // The list that serves after a message proposing another; None where the comparison is undefined.
  function AfterProposal(current: seq<Server>, proposed: seq<Server>): Option<seq<Server>> {
    match MatchFrom(current, proposed, 0)
    case None => None
    case Some(same) => Some(if same then current else proposed)
  }

  /**
   A server-list message puts its list in force exactly when neither list is the other with servers
   added at the end; the comparison is undefined exactly when the new list is the shorter one of
   such a pair.
   */
  lemma ListTakenOverIff(current: seq<Server>, proposed: seq<Server>)
    ensures var after := AfterProposal(current, proposed);
      (after.Some? && SameServers(after.value, proposed)) <==>
        !Extends(current, proposed) && !Extends(proposed, current)
    ensures AfterProposal(current, proposed) == None <==> Extends(proposed, current)
  {
    hide SameServer;
    MatchFromMeans(current, proposed, 0);
    forall a: Server
      ensures SameServer(a, a)
    {
      SameAsItself(a);
    }
    forall a: Server, b: Server
      ensures SameServer(a, b) <==> SameServer(b, a)
    {
      SameEitherWay(a, b);
    }
    assert AgreeFrom(current, proposed, 0) && |current| < |proposed| <==> Extends(current, proposed);
    assert AgreeFrom(current, proposed, 0) && |proposed| < |current| <==> Extends(proposed, current);
    assert AgreeFrom(current, proposed, 0) && |proposed| == |current| <==> SameServers(current, proposed);
  }

  /** A list is ignored exactly when every server in force has host name and port of the one at its place there. */
  lemma ListIgnoredIff(current: seq<Server>, proposed: seq<Server>)
    ensures MatchFrom(current, proposed, 0) == Some(true) <==>
      && |current| <= |proposed|
      && forall j :: 0 <= j < |current| ==>
           && current[j].hostname.GetOr([]) == proposed[j].hostname.GetOr([])
           && current[j].port.GetOr(0) == proposed[j].port.GetOr(0)
  {
    MatchFromMeans(current, proposed, 0);
  }

  /** What a server-list message does to a router that has a list in force, step by step. */
  lemma ListMessage(s: State, frames: seq<Bytes>, instruction: Instruction, payload: Bytes, wake: nat)
    requires DoReceiveRouter(s, frames, instruction, payload, wake).Some? && s.serverList.Some?
    requires instruction.getKeys == [] && instruction.setKeys == [] && instruction.incrKeys == []
    requires instruction.servers != []
    ensures var s', current := DoReceiveRouter(s, frames, instruction, payload, wake).value, s.serverList.value.servers;
      var ignored :=
        && |current| <= |instruction.servers|
        && forall j :: 0 <= j < |current| ==>
             && current[j].hostname.GetOr([]) == instruction.servers[j].hostname.GetOr([])
             && current[j].port.GetOr(0) == instruction.servers[j].port.GetOr(0);
      && (ignored ==> s'.dispatcher == Idle && s'.done == s.done && |s'.direct| == |s.direct| + 1)
      && (!ignored ==> s'.dispatcher.Stopping? && s'.dispatcher.p.instruction == instruction && s'.done)
      && s'.serverList == s.serverList
  {
    ListIgnoredIff(s.serverList.value.servers, instruction.servers);
    hide MatchFrom, Decodes, Push;
  }

  /** Another host at the same port takes over, and so does another port of the same host. */
  lemma OtherServerTakesOver(h: Bytes, h': Bytes, port: int, port': int)
    requires h != h' || port != port'
    ensures AfterProposal([Server(Some(h), Some(port))], [Server(Some(h'), Some(port'))])
         == Some([Server(Some(h'), Some(port'))])
  {
  }

  lemma SameAsItself(a: Server)
    ensures SameServer(a, a)
  {
  }

  lemma SameEitherWay(a: Server, b: Server)
    ensures SameServer(a, b) <==> SameServer(b, a)
  {
  }

  // A server named by its port alone.
  function At(port: int): Server { Server(None, Some(port)) }

  /** One more server: the message is answered and its list ignored. */
  lemma GrownListIgnored()
    ensures AfterProposal([At(1)], [At(1), At(2)]) == Some([At(1)])
    ensures !SameServers([At(1)], [At(1), At(2)])
  {
    assert MatchFrom([At(1)], [At(1), At(2)], 1) == Some(true);
  }

  /** One server less: the comparison reads past the end of the new list. */
  lemma ShrunkListUndefined()
    ensures AfterProposal([At(1), At(2)], [At(1)]) == None
  {
    assert MatchFrom([At(1), At(2)], [At(1)], 1) == None;
  }

  // ---------------------------------------------------------------- steps

  function Reply(p: Packet, payload: Bytes, worker: Option<nat>): Response {
    Response(p, Envelope.Reply(p.frameIds, payload), worker)
  }

  // notify_one: wakes worker `wake`, or nobody if nobody waits.  None: not a legal choice.
  function NotifyOne(workers: seq<Worker>, wake: nat): Option<seq<Worker>> {
    if wake < |workers| && workers[wake].Waiting? then Some(workers[wake := Signalled(workers[wake].list)])
    else if forall i :: 0 <= i < |workers| ==> !workers[i].Waiting? then Some(workers)
    else None
  }

  function WakeUp(w: Worker): Worker {
    if w.Waiting? then Signalled(w.list) else w
  }

  // Push needs the queue mutex.
  function Push(s: State, p: Packet, wake: nat): Option<State> {
    if s.lock.Some? then None
    else
      match NotifyOne(s.workers, wake)
      case None => None
      case Some(workers') => Some(s.(queue := s.queue + [p], pushed := s.pushed + [p], workers := workers'))
  }

  // What the receive loop leaves in the packet; a parse that fails leaves something of its own choice.
  predicate Decodes(data: Option<Bytes>, instruction: Instruction) {
    match data
    case None => instruction == EmptyInstruction
    case Some(bytes) => ParseInstruction(bytes).Parsed? ==> instruction == ParseInstruction(bytes).message
  }

  function Arrived(s: State, async: bool, frames: seq<Bytes>, instruction: Instruction): Packet {
    Packet(|s.received|, async, if async then [] else frames[..Envelope.LeadingIds(frames)], instruction)
  }

  function Log(s: State, p: Packet, frames: seq<Bytes>): State {
    s.(received := s.received + [p], inbox := s.inbox + [frames])
  }

  // None: the step is not possible now, or the program aborts or is undefined there.
  function DoReceiveRouter(s: State, frames: seq<Bytes>, instruction: Instruction, payload: Bytes, wake: nat)
    : Option<State>
  {
    var p := Arrived(s, false, frames, instruction);
    var s1 := Log(s, p, frames);
    if s.dispatcher != Idle || !Decodes(Envelope.DataFrame(frames, true), instruction) then None
    else
      match p.GetType()
      case SERVER_LIST =>
        (match Matching(s.serverList, instruction)
         case None => None
         case Some(same) =>
           if same then Some(s1.(direct := s.direct + [Reply(p, [], None)]))
           else Some(s1.(dispatcher := Stopping(p), done := true)))
      case SET => Push(s1.(direct := s.direct + [Reply(p, [], None)]), p, wake)
      case STATS => Some(s1.(direct := s.direct + [Reply(p, payload, None)]))
      case GET => Push(s1, p, wake)
      case INCREMENT => Push(s1, p, wake)
      case UNKNOWN => None
  }

  function DoReceiveAsync(s: State, frames: seq<Bytes>, instruction: Instruction, wake: nat): Option<State> {
    var p := Arrived(s, true, frames, instruction);
    if s.dispatcher != Idle || !Decodes(Envelope.DataFrame(frames, false), instruction) || p.GetType() != SET then None
    else Push(Log(s, p, frames), p, wake)
  }

  // How many more replies worker w can send.
  function RoomOf(s: State, w: nat): nat {
    if w < |s.room| then s.room[w] else 0
  }

  // Reading reply i makes room for `granted` more replies of worker w.
  function DoForward(s: State, i: nat, w: nat, granted: nat): Option<State> {
    if s.dispatcher != Idle || i >= |s.pipe| then None
    else Some(s.(
      pipe := s.pipe[..i] + s.pipe[i + 1..], forwarded := s.forwarded + [s.pipe[i]],
      room := if w < |s.room| then s.room[w := s.room[w] + granted] else s.room))
  }

  // None: no room, the worker is blocked in the send.
  function Send(s: State, w: nat, p: Packet, payload: Bytes): Option<State> {
    var r := Reply(p, payload, Some(s.started + w));
    if RoomOf(s, w) == 0 then None
    else Some(s.(sent := s.sent + [p], pipe := s.pipe + [r], room := s.room[w := s.room[w] - 1]))
  }

  predicate AllExited(workers: seq<Worker>) {
    forall i :: 0 <= i < |workers| ==> workers[i].Exited?
  }

  // All workers joined: swap the list, start new workers, release the mutex, reply.
  function DoRestart(s: State, numThreads: nat, capacity: nat): Option<State> {
    if !s.dispatcher.Joining? || !AllExited(s.workers) then None
    else Some(s.(
      serverList := Some(s.dispatcher.p.instruction), done := false, queueDone := false, dispatcher := Idle,
      workers := seq(numThreads, _ => Starting), room := seq(numThreads, _ => capacity),
      started := s.started + |s.workers|,
      direct := s.direct + [Reply(s.dispatcher.p, [], None)]))
  }

  function DoPop(s: State, w: nat, wake: nat): Option<State>
    requires w < |s.workers|
  {
    if !s.workers[w].Ready? then None
    else
      var list := s.workers[w].list;
      if s.queueDone || s.queue == [] then
        Some(s.(lock := None, workers := s.workers[w := Serving(list, [])]))
      else
        var n := BatchSize(s.queue);
        var s1 := s.(lock := None, queue := s.queue[n..], popped := s.popped + [s.queue[..n]],
                     workers := s.workers[w := Serving(list, s.queue[..n])]);
        if s1.queue == [] then Some(s1)
        else
          match NotifyOne(s1.workers, wake)
          case None => None
          case Some(workers') => Some(s1.(workers := workers'))
  }

  // A SET or an increment; GETs go by the two steps below.
  function DoServe(s: State, w: nat, payload: Bytes): Option<State>
    requires w < |s.workers|
  {
    if !s.workers[w].Serving? || s.workers[w].batch == [] || s.workers[w].batch[0].GetType() == GET then None
    else
      var p, rest := s.workers[w].batch[0], s.workers[w].batch[1..];
      var s1 := s.(workers := s.workers[w := Serving(s.workers[w].list, rest)]);
      if p.GetType() == SET then Some(s1.(applied := s.applied + [p]))
      else Send(s1, w, p, payload)
  }

  predicate AllGets(batch: seq<Packet>) {
    forall i :: 0 <= i < |batch| ==> batch[i].GetType() == GET
  }

  function Instructions(batch: seq<Packet>): seq<Instruction> {
    seq(|batch|, i requires 0 <= i < |batch| => batch[i].instruction)
  }

  // The answers are what the client reads for the distinct keys of the batch.
  predicate GoodFetch(f: Fetched) {
    var wanted := Batch.Wanted(Instructions(f.batch));
    && (f.cache.Some? ==> |f.cache.value| == MemClient.NUM_BUCKETS)
    && MemClient.Enumerates(f.keys, wanted)
    && var r := MemClient.ReadThrough(f.cfg, f.cache, f.store, wanted, f.keys, f.arrival);
       r.Some? && r.value.1 == f.answers
  }

  function DoFetch(s: State, w: nat, f: Fetched): Option<State>
    requires w < |s.workers|
  {
    if !s.workers[w].Serving? || f.batch == [] || f.batch != s.workers[w].batch || !AllGets(f.batch) || !GoodFetch(f)
    then None
    else Some(s.(workers := s.workers[w := Answering(s.workers[w].list, f.batch, f.answers)],
                 fetches := s.fetches + [f]))
  }

  // What is sent for an instruction of 2^31 bytes or more is left open.
  predicate Encodes(payload: Bytes, instruction: Instruction) {
    Sendable(instruction) ==> payload == SerializeInstruction(instruction)
  }

  function DoAnswer(s: State, w: nat, payload: Bytes): Option<State>
    requires w < |s.workers|
  {
    if !s.workers[w].Answering? || s.workers[w].batch == [] then None
    else
      var p, rest, answers := s.workers[w].batch[0], s.workers[w].batch[1..], s.workers[w].answers;
      if !Batch.Covers(answers, p.instruction) || !Encodes(payload, Batch.Answered(p.instruction, answers)) then None
      else Send(s.(workers := s.workers[w := Answering(s.workers[w].list, rest, answers)]), w, p, payload)
  }

  function DoWorker(s: State, a: Action): Option<State>
    requires a.ReadList? || a.TestDone? || a.LockQueue? || a.Block? || a.SpuriousWake? || a.FinishBatch?
    requires a.w < |s.workers|
  {
    var w := s.workers[a.w];
    match a
    case ReadList(i) =>
      if w.Starting? && s.dispatcher == Idle && s.serverList.Some?
      then Some(s.(workers := s.workers[i := Top(s.serverList.value)])) else None
    case TestDone(i) =>
      if w.Top? then Some(s.(workers := s.workers[i := if s.done then Exited else AtPop(w.list)])) else None
    case LockQueue(i) =>
      if (w.AtPop? || w.Signalled?) && s.lock.None? then
        var w' := if !s.queueDone && s.queue == [] then AboutToWait(w.list) else Ready(w.list);
        Some(s.(lock := Some(i), workers := s.workers[i := w']))
      else None
    case Block(i) =>
      if w.AboutToWait? then Some(s.(lock := None, workers := s.workers[i := Waiting(w.list)])) else None
    case SpuriousWake(i) =>
      if w.Waiting? then Some(s.(workers := s.workers[i := Signalled(w.list)])) else None
    case FinishBatch(i) =>
      if (w.Serving? || w.Answering?) && w.batch == [] then Some(s.(workers := s.workers[i := Top(w.list)])) else None
  }

  function Next(s: State, a: Action): Option<State> {
    match a
    case ReceiveRouter(frames, instruction, payload, wake) => DoReceiveRouter(s, frames, instruction, payload, wake)
    case ReceiveAsync(frames, instruction, wake) => DoReceiveAsync(s, frames, instruction, wake)
    case Forward(i, w, granted) => DoForward(s, i, w, granted)
    case SetQueueDone =>
      if s.dispatcher.Stopping? then Some(s.(dispatcher := Unblocking(s.dispatcher.p), queueDone := true)) else None
    case NotifyAll =>
      if s.dispatcher.Unblocking? then
        Some(s.(dispatcher := Joining(s.dispatcher.p),
                workers := seq(|s.workers|, i requires 0 <= i < |s.workers| => WakeUp(s.workers[i]))))
      else None
    case Restart(numThreads, capacity) => DoRestart(s, numThreads, capacity)
    case Pop(w, wake) => if w < |s.workers| then DoPop(s, w, wake) else None
    case Serve(w, payload) => if w < |s.workers| then DoServe(s, w, payload) else None
    case Fetch(w, fetched) => if w < |s.workers| then DoFetch(s, w, fetched) else None
    case Answer(w, payload) => if w < |s.workers| then DoAnswer(s, w, payload) else None
    case _ => if a.w < |s.workers| then DoWorker(s, a) else None
  }

  function Run(actions: seq<Action>): Option<State> {
    if actions == [] then Some(Initial)
    else
      match Run(actions[..|actions| - 1])
      case None => None
      case Some(s) => Next(s, actions[|actions| - 1])
  }
}
