/** Multi-frame messages: how the router reads a request's envelope and puts it back on the reply. */
module Envelope {
  import opened Wire
  import opened Messages

  // The frames in front of the first empty one.
  function LeadingIds(frames: seq<Bytes>): (n: nat)
    ensures n <= |frames|
    ensures forall i :: 0 <= i < n ==> frames[i] != []
    ensures n < |frames| ==> frames[n] == []
  {
    if frames == [] || frames[0] == [] then 0 else 1 + LeadingIds(frames[1..])
  }

  // The last frame behind the delimiter is the one whose instruction stays.
  function DataFrame(frames: seq<Bytes>, multiFrame: bool): Option<Bytes> {
    var first := if multiFrame then LeadingIds(frames) + 1 else 0;
    if first < |frames| then Some(frames[|frames| - 1]) else None
  }

  /** The receive loop: non-empty frames are ids until an empty one turns the rest into data. */
  method ReceiveOnePacket(frames: seq<Bytes>, multiFrame: bool) returns (frameIds: seq<Bytes>, data: Option<Bytes>)
    ensures frameIds == if multiFrame then frames[..LeadingIds(frames)] else []
    ensures data == DataFrame(frames, multiFrame)
  {
    frameIds, data := [], None;
    var isData, i := !multiFrame, 0;
    while i < |frames|
      invariant 0 <= i <= |frames|
      invariant !isData ==> multiFrame && i <= LeadingIds(frames) && frameIds == frames[..i] && data == None
      invariant isData && multiFrame ==> LeadingIds(frames) < i && frameIds == frames[..LeadingIds(frames)]
      invariant isData && !multiFrame ==> frameIds == []
      invariant isData ==>
        data == if (if multiFrame then LeadingIds(frames) + 1 else 0) < i then Some(frames[i - 1]) else None
    {
      var frame := frames[i];
      if isData {
        data := Some(frame);
      } else if frame == [] {
        isData := true;
      } else {
        frameIds := frameIds + [frame];
      }
      i := i + 1;
    }
  }

  function Reply(frameIds: seq<Bytes>, payload: Bytes): seq<Bytes> {
    frameIds + [[]] + [payload]
  }

  /** The send loop over the ids, then the delimiter, then the payload. */
  method SendFrames(frameIds: seq<Bytes>, payload: Bytes) returns (sent: seq<Bytes>)
    ensures sent == Reply(frameIds, payload)
  {
    sent := [];
    for i := 0 to |frameIds|
      invariant sent == frameIds[..i]
    {
      sent := sent + [frameIds[i]];
    }
    sent := sent + [[]];
    sent := sent + [payload];
  }

  /**
   The reply to a request with a delimiter starts with the very frames the request started with,
   up to and including the first empty one, and its remaining frame carries the instruction back.
   */
  lemma ReplyKeepsEnvelope(frames: seq<Bytes>, answer: Instruction)
    requires LeadingIds(frames) < |frames| && ValidInstruction(answer)
    ensures var reply := Reply(frames[..LeadingIds(frames)], SerializeInstruction(answer));
      && |reply| == LeadingIds(frames) + 2
      && reply[..LeadingIds(frames) + 1] == frames[..LeadingIds(frames) + 1]
      && DataFrame(reply, true).Some?
      && ParseInstruction(DataFrame(reply, true).value) == Parsed(answer)
  {
    hide SerializeInstruction, ParseInstruction, ValidInstruction;
    var n, payload := LeadingIds(frames), SerializeInstruction(answer);
    var reply := Reply(frames[..n], payload);
    InstructionRoundTrip(answer);
    assert reply[n] == [] && reply[n + 1] == payload;
    IdsOfReply(frames[..n], payload);
    assert reply[..n + 1] == frames[..n + 1];
  }

  lemma {:induction false} IdsOfReply(ids: seq<Bytes>, payload: Bytes)
    requires forall i :: 0 <= i < |ids| ==> ids[i] != []
    ensures LeadingIds(Reply(ids, payload)) == |ids|
    decreases |ids|
  {
    if ids != [] {
      IdsOfReply(ids[1..], payload);
      assert Reply(ids, payload)[1..] == Reply(ids[1..], payload);
    }
  }
}
