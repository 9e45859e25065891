/** What the client of a GET gets back, in every run. */
module RouterReplies {
  import opened Wire
  import opened Messages
  import opened WorkQueue
  import opened Router
  import opened RouterLocking
  import opened RouterAccounting
  import Batch
  import MemClient
  import MemReads
  import Envelope

  // ---------------------------------------------------------------- requests

  /** The packet is what the receive loop makes of the frames. */
  predicate MadeFrom(p: Packet, frames: seq<Bytes>) {
    && Decodes(Envelope.DataFrame(frames, !p.async), p.instruction)
    && (!p.async ==>
          Envelope.LeadingIds(frames) < |frames| && p.frameIds == frames[..Envelope.LeadingIds(frames)])
  }

  predicate InboxInv(s: State) {
    |s.inbox| == |s.received| && forall i :: 0 <= i < |s.received| ==> MadeFrom(s.received[i], s.inbox[i])
  }

  lemma ArrivedMadeFrom(s: State, async: bool, frames: seq<Bytes>, instruction: Instruction)
    requires Decodes(Envelope.DataFrame(frames, !async), instruction)
    requires Arrived(s, async, frames, instruction).GetType() != UNKNOWN
    ensures MadeFrom(Arrived(s, async, frames, instruction), frames)
  {
  }

  lemma ReceiptInbox(s: State, a: Action)
    requires InboxInv(s) && (a.ReceiveRouter? || a.ReceiveAsync?) && Next(s, a).Some?
    ensures InboxInv(Next(s, a).value)
  {
    hide Matching, Decodes, Push, MadeFrom;
    var p := Arrived(s, a.ReceiveAsync?, a.frames, a.instruction);
    var s1 := Log(s, p, a.frames);
    var s2 := s1.(direct := s.direct + [Reply(p, [], None)]);
    ArrivedMadeFrom(s, a.ReceiveAsync?, a.frames, a.instruction);
    assert InboxInv(s1);
    if Push(s1, p, a.wake).Some? { PushFrame(s1, p, a.wake); }
    if Push(s2, p, a.wake).Some? { PushFrame(s2, p, a.wake); }
  }

  lemma OthersReceiveNothing(s: State, a: Action)
    requires !a.ReceiveRouter? && !a.ReceiveAsync? && Next(s, a).Some?
    ensures Next(s, a).value.inbox == s.inbox && Next(s, a).value.received == s.received
  {
    hide NotifyOne, BatchSize, DoReceiveRouter, DoReceiveAsync, GoodFetch, Encodes;
  }

  lemma NextInbox(s: State, a: Action)
    requires InboxInv(s) && Next(s, a).Some?
    ensures InboxInv(Next(s, a).value)
  {
    hide Next, MadeFrom;
    if a.ReceiveRouter? || a.ReceiveAsync? {
      ReceiptInbox(s, a);
    } else {
      OthersReceiveNothing(s, a);
    }
  }

  /** Every packet received is what its frames say. */
  lemma {:induction false} PacketsMadeFromFrames(actions: seq<Action>)
    requires Run(actions).Some?
    ensures InboxInv(Run(actions).value)
    decreases |actions|
  {
    if actions != [] {
      hide Next, InboxInv;
      PacketsMadeFromFrames(actions[..|actions| - 1]);
      NextInbox(Run(actions[..|actions| - 1]).value, actions[|actions| - 1]);
    }
  }

  /** In every run the instruction of a packet is what its last frame parses to, if it parses. */
  lemma RequestsAsSent(actions: seq<Action>, i: nat)
    requires Run(actions).Some? && i < |Run(actions).value.received|
    ensures var s := Run(actions).value;
      && |s.inbox| == |s.received| && s.inbox[i] != []
      && (!s.received[i].async ==> [] in s.inbox[i][..|s.inbox[i]| - 1])
      && var data := ParseInstruction(s.inbox[i][|s.inbox[i]| - 1]);
         data.Parsed? ==> s.received[i].instruction == data.message
  {
    hide Run, ParseInstruction;
    var s := Run(actions).value;
    PacketsMadeFromFrames(actions);
    KindsReceived(actions);
    assert MadeFrom(s.received[i], s.inbox[i]) && s.received[i].GetType() != UNKNOWN;
    DataIsLast(s.received[i], s.inbox[i]);
  }

  lemma DataIsLast(p: Packet, frames: seq<Bytes>)
    requires MadeFrom(p, frames) && p.GetType() != UNKNOWN
    ensures frames != [] && Decodes(Some(frames[|frames| - 1]), p.instruction)
    ensures !p.async ==> [] in frames[..|frames| - 1]
  {
    hide ParseInstruction;
    if !p.async {
      var n := Envelope.LeadingIds(frames);
      assert n + 1 < |frames|;
      assert frames[..|frames| - 1][n] == [];
    }
  }

  // ---------------------------------------------------------------- answers

  /** The response carries the answers of this fetch. */
  ghost predicate Carries(r: Response, f: Fetched) {
    && GoodFetch(f) && r.origin in f.batch && r.frames != []
    && Batch.Covers(f.answers, r.origin.instruction)
    && Encodes(r.frames[|r.frames| - 1], Batch.Answered(r.origin.instruction, f.answers))
  }

  ghost predicate Answered(fetches: seq<Fetched>, r: Response) {
    r.origin.GetType() == GET ==> exists i :: 0 <= i < |fetches| && Carries(r, fetches[i])
  }

  ghost predicate HasFetched(fetches: seq<Fetched>, w: Worker) {
    w.Answering? ==> exists i :: 0 <= i < |fetches| && Holds(w, fetches[i])
  }

  ghost predicate Holds(w: Worker, f: Fetched)
    requires w.Answering?
  {
    GoodFetch(f) && w.answers == f.answers && forall j :: 0 <= j < |w.batch| ==> w.batch[j] in f.batch
  }

  ghost predicate AnswerInv(s: State) {
    && (forall i :: 0 <= i < |s.workers| ==> HasFetched(s.fetches, s.workers[i]))
    && (forall i :: 0 <= i < |s.pipe| ==> Answered(s.fetches, s.pipe[i]))
    && (forall i :: 0 <= i < |s.forwarded| ==> Answered(s.fetches, s.forwarded[i]))
  }

  lemma MoreFetches(fetches: seq<Fetched>, f: Fetched)
    ensures forall r :: Answered(fetches, r) ==> Answered(fetches + [f], r)
    ensures forall w :: HasFetched(fetches, w) ==> HasFetched(fetches + [f], w)
  {
    hide Carries, Holds;
    forall r | Answered(fetches, r)
      ensures Answered(fetches + [f], r)
    {
      if r.origin.GetType() == GET {
        var i :| 0 <= i < |fetches| && Carries(r, fetches[i]);
        assert (fetches + [f])[i] == fetches[i];
      }
    }
    forall w | HasFetched(fetches, w)
      ensures HasFetched(fetches + [f], w)
    {
      if w.Answering? {
        var i :| 0 <= i < |fetches| && Holds(w, fetches[i]);
        assert (fetches + [f])[i] == fetches[i];
      }
    }
  }

  lemma FetchAnswers(s: State, w: nat, f: Fetched)
    requires AnswerInv(s) && w < |s.workers| && DoFetch(s, w, f).Some?
    ensures AnswerInv(DoFetch(s, w, f).value)
  {
    hide GoodFetch, Carries, Answered;
    MoreFetches(s.fetches, f);
    var s' := DoFetch(s, w, f).value;
    assert HasFetched(s'.fetches, s'.workers[w]) by {
      assert Holds(s'.workers[w], s'.fetches[|s.fetches|]);
    }
    hide HasFetched;
  }

  lemma ReplyCarries(p: Packet, payload: Bytes, worker: Option<nat>, f: Fetched)
    requires GoodFetch(f) && p in f.batch && Batch.Covers(f.answers, p.instruction)
    requires Encodes(payload, Batch.Answered(p.instruction, f.answers))
    ensures Carries(Reply(p, payload, worker), f)
  {
    hide GoodFetch, Batch.Covers, Encodes, Batch.Answered;
  }

  lemma AnswerAnswers(s: State, w: nat, payload: Bytes)
    requires AnswerInv(s) && w < |s.workers| && DoAnswer(s, w, payload).Some?
    ensures AnswerInv(DoAnswer(s, w, payload).value)
  {
    hide GoodFetch, Carries, Encodes, Batch.Answered, Batch.Covers, Reply;
    var s', p := DoAnswer(s, w, payload).value, s.workers[w].batch[0];
    assert HasFetched(s.fetches, s.workers[w]);
    var i :| 0 <= i < |s.fetches| && Holds(s.workers[w], s.fetches[i]);
    ReplyCarries(p, payload, Some(s.started + w), s.fetches[i]);
    assert Answered(s.fetches, Reply(p, payload, Some(s.started + w)));
    assert Holds(s'.workers[w], s.fetches[i]);
    assert HasFetched(s'.fetches, s'.workers[w]);
    hide HasFetched, Answered;
  }

  lemma ServeAnswers(s: State, w: nat, payload: Bytes)
    requires AnswerInv(s) && w < |s.workers| && DoServe(s, w, payload).Some?
    ensures AnswerInv(DoServe(s, w, payload).value)
  {
    hide Carries, Holds, Reply;
    ReplyOrigin(s.workers[w].batch[0], payload, Some(s.started + w));
    assert s.workers[w].batch[0].GetType() != GET;
  }

  // Neither the workers that answer nor their answers change.
  ghost predicate LeavesAnswers(s: State, s': State) {
    && s'.fetches == s.fetches && s'.pipe == s.pipe && s'.forwarded == s.forwarded
    && forall i :: 0 <= i < |s'.workers| && s'.workers[i].Answering? ==>
         i < |s.workers| && s'.workers[i] == s.workers[i]
  }

  lemma OthersAnswer(s: State, s': State)
    requires AnswerInv(s) && LeavesAnswers(s, s')
    ensures AnswerInv(s')
  {
    hide Carries, Holds, Answered;
    forall i | 0 <= i < |s'.workers|
      ensures HasFetched(s'.fetches, s'.workers[i])
    {
      if s'.workers[i].Answering? {
        assert HasFetched(s.fetches, s.workers[i]);
      }
    }
  }

  lemma ForwardAnswers(s: State, i: nat, w: nat, granted: nat)
    requires AnswerInv(s) && DoForward(s, i, w, granted).Some?
    ensures AnswerInv(DoForward(s, i, w, granted).value)
  {
    hide HasFetched, Answered;
  }

  lemma PushLeavesAnswers(s: State, p: Packet, wake: nat)
    requires Push(s, p, wake).Some?
    ensures LeavesAnswers(s, Push(s, p, wake).value)
  {
    hide Push;
    PushFrame(s, p, wake);
  }

  lemma ReceiptLeavesAnswers(s: State, a: Action)
    requires (a.ReceiveRouter? || a.ReceiveAsync?) && Next(s, a).Some?
    ensures LeavesAnswers(s, Next(s, a).value)
  {
    hide Matching, Decodes, Push;
    var p := Arrived(s, a.ReceiveAsync?, a.frames, a.instruction);
    var s1 := Log(s, p, a.frames);
    var s2 := s1.(direct := s.direct + [Reply(p, [], None)]);
    if Push(s1, p, a.wake).Some? { PushLeavesAnswers(s1, p, a.wake); }
    if Push(s2, p, a.wake).Some? { PushLeavesAnswers(s2, p, a.wake); }
  }

  lemma PopLeavesAnswers(s: State, w: nat, wake: nat)
    requires w < |s.workers| && DoPop(s, w, wake).Some?
    ensures LeavesAnswers(s, DoPop(s, w, wake).value)
  {
    hide BatchSize;
  }

  lemma OthersLeaveAnswers(s: State, a: Action)
    requires Next(s, a).Some? && !a.Forward? && !a.Serve? && !a.Fetch? && !a.Answer?
    ensures LeavesAnswers(s, Next(s, a).value)
  {
    hide DoReceiveRouter, DoReceiveAsync, DoPop;
    match a
    case ReceiveRouter(_, _, _, _) => ReceiptLeavesAnswers(s, a);
    case ReceiveAsync(_, _, _) => ReceiptLeavesAnswers(s, a);
    case Pop(w, wake) => PopLeavesAnswers(s, w, wake);
    case _ =>
  }

  lemma NextAnswers(s: State, a: Action)
    requires AnswerInv(s) && Next(s, a).Some?
    ensures AnswerInv(Next(s, a).value)
  {
    hide AnswerInv, LeavesAnswers, DoForward, DoServe, DoFetch, DoAnswer;
    match a
    case Forward(i, w, granted) => ForwardAnswers(s, i, w, granted);
    case Serve(w, payload) => ServeAnswers(s, w, payload);
    case Fetch(w, f) => FetchAnswers(s, w, f);
    case Answer(w, payload) => AnswerAnswers(s, w, payload);
    case _ =>
      OthersLeaveAnswers(s, a);
      OthersAnswer(s, Next(s, a).value);
  }

  lemma {:induction false} RunAnswers(actions: seq<Action>)
    requires Run(actions).Some?
    ensures AnswerInv(Run(actions).value)
    decreases |actions|
  {
    if actions != [] {
      hide Next, AnswerInv;
      RunAnswers(actions[..|actions| - 1]);
      NextAnswers(Run(actions[..|actions| - 1]).value, actions[|actions| - 1]);
    }
  }

  // ---------------------------------------------------------------- the reply to a GET

  /** Every slot has the value and flags the store holds for its key, or its own if the store has none. */
  ghost predicate AnswersFrom(store: MemClient.Store, asked: Instruction, got: Instruction) {
    && |got.getKeys| == |asked.getKeys|
    && forall j :: 0 <= j < |asked.getKeys| ==>
         var slot, reply := asked.getKeys[j], got.getKeys[j];
         if slot.Key() in store
         then reply.val == Some(store[slot.Key()].val) && reply.flags == Some(store[slot.Key()].flags)
         else reply.val == slot.val && reply.flags == slot.flags
  }

  lemma FetchAnswersFromStore(f: Fetched, p: Packet)
    requires GoodFetch(f) && p in f.batch && Batch.Covers(f.answers, p.instruction)
    requires MemClient.CacheAgrees(f.cfg, f.cache, f.store)
    ensures AnswersFrom(f.store, p.instruction, Batch.Answered(p.instruction, f.answers))
  {
    hide MemClient.CacheAgrees, MemClient.ReadThrough;
    var instructions := Instructions(f.batch);
    var wanted := Batch.Wanted(instructions);
    MemClient.GetKeysTransparent(f.cfg, f.cache, f.store, wanted, f.keys, f.arrival);
    forall j | 0 <= j < |p.instruction.getKeys|
      ensures MemClient.SameAnswer(
        f.answers[p.instruction.getKeys[j].Key()],
        MemClient.Uncached(f.store, EmptyKv, p.instruction.getKeys[j].Key()))
    {
      var i :| 0 <= i < |f.batch| && f.batch[i] == p;
      assert instructions[i] == p.instruction;
    }
  }

  // The keys of the batch that the cache did not answer.
  ghost function MissedBy(f: Fetched): seq<Bytes> {
    var wanted := Batch.Wanted(Instructions(f.batch));
    if (f.cache.Some? ==> |f.cache.value| == MemClient.NUM_BUCKETS) && (forall k :: k in f.keys ==> k in wanted)
    then MemReads.Missed(f.cfg, f.cache, wanted, f.keys) else []
  }

  /**
   Value, flags and cas of every slot: those last cached under its key if the cache answered, those of
   the store if it did not and the store has the key, and its own otherwise.  The key stays.
   */
  ghost predicate SlotsFrom(
    last: MemClient.Store, store: MemClient.Store, missed: seq<Bytes>, asked: Instruction, got: Instruction)
  {
    && |got.getKeys| == |asked.getKeys|
    && forall j :: 0 <= j < |asked.getKeys| ==>
         SlotFrom(last, store, missed, asked.getKeys[j], got.getKeys[j])
  }

  predicate SlotFrom(
    last: MemClient.Store, store: MemClient.Store, missed: seq<Bytes>, slot: KeyValue, reply: KeyValue)
  {
    var k := slot.key.GetOr([]);
    && reply.key == slot.key
    && if k !in missed then
         k in last && reply.val == Some(last[k].val) && reply.flags == Some(last[k].flags)
         && reply.cas == Some(last[k].cas)
       else if k in store then
         reply.val == Some(store[k].val) && reply.flags == Some(store[k].flags) && reply.cas == Some(store[k].cas)
         && reply.returnCode == Some(0)
       else
         reply.val == slot.val && reply.flags == slot.flags && reply.cas == slot.cas
  }

  lemma FetchFillsSlots(f: Fetched, last: MemClient.Store, p: Packet)
    requires GoodFetch(f) && p in f.batch && Batch.Covers(f.answers, p.instruction)
    requires MemReads.Remembers(f.cfg, f.cache, last)
    ensures SlotsFrom(last, f.store, MissedBy(f), p.instruction, Batch.Answered(p.instruction, f.answers))
  {
    hide MemReads.Remembers, MemReads.Missed, MemClient.ReadThrough;
    var instructions := Instructions(f.batch);
    var wanted := Batch.Wanted(instructions);
    MemReads.ReadAnswers(f.cfg, f.cache, last, f.store, wanted, f.keys, f.arrival);
    forall j | 0 <= j < |p.instruction.getKeys|
      ensures p.instruction.getKeys[j].Key() in wanted
    {
      var i :| 0 <= i < |f.batch| && f.batch[i] == p;
      assert instructions[i] == p.instruction;
    }
  }

  lemma {:induction false} PartsWereReceived(ps: seq<Packet>, p: Packet)
    requires p in QueuedPart(ps) || p in DirectPart(ps)
    ensures p in ps
    ensures p in DirectPart(ps) ==> !p.async
    decreases |ps|
  {
    var rest := ps[..|ps| - 1];
    if p in QueuedPart(rest) || p in DirectPart(rest) {
      PartsWereReceived(rest, p);
    }
  }

  lemma PipedReceived(s: State, r: Response)
    requires Accounted(s) && (r in s.pipe || r in s.forwarded)
    ensures r.origin in s.received && !r.origin.async && WellAddressed(r)
  {
    hide QueuedPart, DirectPart, InBatches, WellAddressed, DirectInv;
    var p := r.origin;
    assert p in s.sent by {
      if r in s.pipe {
        var i :| 0 <= i < |s.pipe| && s.pipe[i] == r;
        assert Origins(s.pipe)[i] == p;
      } else {
        var i :| 0 <= i < |s.forwarded| && s.forwarded[i] == r;
        assert Origins(s.forwarded)[i] == p;
      }
      assert multiset(s.sent)[p] > 0;
    }
    assert multiset(s.pushed)[p] > 0;
    assert p in QueuedPart(s.received);
    PartsWereReceived(s.received, p);
  }

  lemma DirectReceived(s: State, r: Response)
    requires Accounted(s) && r in s.direct
    ensures r.origin in s.received && !r.origin.async && WellAddressed(r)
  {
    hide QueuedPart, DirectPart, InBatches, WellAddressed, CountInv;
    var i :| 0 <= i < |s.direct| && s.direct[i] == r;
    assert Origins(s.direct)[i] == r.origin;
    PartsWereReceived(if s.dispatcher == Idle then s.received else s.received[..|s.received| - 1], r.origin);
  }

  lemma InPlace(s: State, p: Packet)
    requires Accounted(s) && p in s.received
    ensures p.id < |s.received| && s.received[p.id] == p
  {
    hide DirectInv, CountInv, AddressInv;
  }

  // The reply starts with the ids and the delimiter of these frames and has one frame more.
  predicate SentBackTo(r: Response, frames: seq<Bytes>) {
    var n := Envelope.LeadingIds(frames);
    n < |frames| && |r.frames| == n + 2 && r.frames[..n + 1] == frames[..n + 1]
  }

  /** In every run every reply starts with the very frames its request started with, delimiter included. */
  lemma EveryReplySentBack(actions: seq<Action>, r: Response)
    requires Run(actions).Some?
    requires var s := Run(actions).value; r in s.direct || r in s.pipe || r in s.forwarded
    ensures var s := Run(actions).value;
      && r.origin.id < |s.inbox| == |s.received| && s.received[r.origin.id] == r.origin
      && MadeFrom(r.origin, s.inbox[r.origin.id])
      && SentBackTo(r, s.inbox[r.origin.id])
  {
    hide Run, Accounted, WellAddressed, MadeFrom, SentBackTo;
    var s := Run(actions).value;
    RunAccounted(actions);
    if r in s.direct { DirectReceived(s, r); } else { PipedReceived(s, r); }
    InPlace(s, r.origin);
    PacketsMadeFromFrames(actions);
    AddressedBack(r, s.inbox[r.origin.id]);
  }

  lemma AddressedBack(r: Response, frames: seq<Bytes>)
    requires !r.origin.async && MadeFrom(r.origin, frames) && WellAddressed(r)
    ensures SentBackTo(r, frames)
  {
    hide Decodes;
    var n := Envelope.LeadingIds(frames);
    assert frames[..n] + [[]] == frames[..n + 1];
  }

  lemma CarriedParses(r: Response, f: Fetched)
    requires Carries(r, f) && Sendable(Batch.Answered(r.origin.instruction, f.answers))
    ensures ParseInstruction(r.frames[|r.frames| - 1]) == Parsed(Batch.Answered(r.origin.instruction, f.answers))
  {
    hide GoodFetch, ValidInstruction, SerializeInstruction, ParseInstruction, Batch.Covers, Batch.Answered;
    InstructionRoundTrip(Batch.Answered(r.origin.instruction, f.answers));
  }

  /**
   In every run, the reply to a GET that is in the pipe or was forwarded starts with the very frames
   its request started with, delimiter included, and carries the request, as its frames say it,
   answered from one fetch made for a batch it was in; if the cache agreed with the store then,
   every slot has the value and flags of the store.
   */
  lemma GetRepliesFromStore(actions: seq<Action>, r: Response) returns (f: Fetched)
    requires Run(actions).Some? && (r in Run(actions).value.pipe || r in Run(actions).value.forwarded)
    requires r.origin.instruction.getKeys != []
    ensures var s := Run(actions).value;
      && f in s.fetches && r.origin in f.batch && GoodFetch(f) && Batch.Covers(f.answers, r.origin.instruction)
      && var answer := Batch.Answered(r.origin.instruction, f.answers);
         && r.frames != []
         && (Sendable(answer) ==> ParseInstruction(r.frames[|r.frames| - 1]) == Parsed(answer))
         && (MemClient.CacheAgrees(f.cfg, f.cache, f.store) ==> AnswersFrom(f.store, r.origin.instruction, answer))
         && (forall last :: MemReads.Remembers(f.cfg, f.cache, last) ==>
               SlotsFrom(last, f.store, MissedBy(f), r.origin.instruction, answer))
    ensures var s := Run(actions).value;
      && r.origin.id < |s.inbox| == |s.received| && s.received[r.origin.id] == r.origin
      && MadeFrom(r.origin, s.inbox[r.origin.id])
      && SentBackTo(r, s.inbox[r.origin.id])
  {
    hide Run, GoodFetch, MadeFrom, SentBackTo, AnswersFrom, MemClient.CacheAgrees, MemReads.Remembers, SlotsFrom;
    hide ValidInstruction, SerializeInstruction, ParseInstruction, Batch.Answered;
    var s := Run(actions).value;
    EveryReplySentBack(actions, r);
    RunAnswers(actions);
    assert Answered(s.fetches, r);
    var i :| 0 <= i < |s.fetches| && Carries(r, s.fetches[i]);
    f := s.fetches[i];
    if Sendable(Batch.Answered(r.origin.instruction, f.answers)) {
      CarriedParses(r, f);
    }
    if MemClient.CacheAgrees(f.cfg, f.cache, f.store) {
      FetchAnswersFromStore(f, r.origin);
    }
    forall last | MemReads.Remembers(f.cfg, f.cache, last)
      ensures SlotsFrom(last, f.store, MissedBy(f), r.origin.instruction,
                        Batch.Answered(r.origin.instruction, f.answers))
    {
      FetchFillsSlots(f, last, r.origin);
    }
  }

  // ---------------------------------------------------------------- acknowledgements

  // Only a statistics request gets something back from the dispatcher.
  predicate Acknowledges(r: Response) {
    && r.frames != []
    && (r.frames[|r.frames| - 1] == [] ||
        (r.origin.instruction.getKeys == [] && r.origin.instruction.setKeys == []
         && r.origin.instruction.incrKeys == [] && r.origin.instruction.servers == []))
  }

  predicate AckInv(s: State) {
    forall i :: 0 <= i < |s.direct| ==> Acknowledges(s.direct[i])
  }

  lemma EmptyReply(p: Packet)
    ensures Acknowledges(Reply(p, [], None))
  {
  }

  lemma StatsReply(p: Packet, payload: Bytes)
    requires p.GetType() == STATS
    ensures Acknowledges(Reply(p, payload, None))
  {
  }

  lemma RouterAcknowledges(s: State, frames: seq<Bytes>, instruction: Instruction, payload: Bytes, wake: nat)
    requires AckInv(s) && DoReceiveRouter(s, frames, instruction, payload, wake).Some?
    ensures AckInv(DoReceiveRouter(s, frames, instruction, payload, wake).value)
  {
    hide Matching, Decodes, NotifyOne, Acknowledges, Reply;
    var p := Arrived(s, false, frames, instruction);
    EmptyReply(p);
    if p.GetType() == STATS {
      StatsReply(p, payload);
    }
  }

  lemma NextAcknowledges(s: State, a: Action)
    requires AckInv(s) && Next(s, a).Some?
    ensures AckInv(Next(s, a).value)
  {
    hide DoReceiveRouter, NotifyOne, BatchSize, GoodFetch, Encodes, Decodes, Acknowledges, Reply;
    if a.ReceiveRouter? {
      RouterAcknowledges(s, a.frames, a.instruction, a.payload, a.wake);
    } else if a.Restart? && s.dispatcher.Joining? {
      EmptyReply(s.dispatcher.p);
    }
  }

  /** In every run the dispatcher's reply to a SET or a server list has an empty last frame. */
  lemma {:induction false} AcknowledgementsEmpty(actions: seq<Action>)
    requires Run(actions).Some?
    ensures AckInv(Run(actions).value)
    decreases |actions|
  {
    if actions != [] {
      hide Next, AckInv;
      AcknowledgementsEmpty(actions[..|actions| - 1]);
      NextAcknowledges(Run(actions[..|actions| - 1]).value, actions[|actions| - 1]);
    }
  }
}
