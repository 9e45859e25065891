/**
 Pipelining: commands of many callers are concatenated into one request; the reply stream is cut
 up by the response headers and handed back.
 */
module Demux {
  import opened Wire
  import opened Protocol
  import opened Seqs

  /** What a waiting caller shares with the server thread. */
  class ResponseState {
    var numLeft: int
    var response: Bytes

    constructor ()
      ensures numLeft == 0 && response == []
    {
      numLeft, response := 0, [];
    }

    method Reset()
      modifies this
      ensures numLeft == 0 && response == []
    {
      numLeft, response := 0, [];
    }

    method IncrementPending()
      modifies this`numLeft
      ensures numLeft == old(numLeft) + 1
    {
      numLeft := numLeft + 1;
    }

    method DecrementPending()
      modifies this`numLeft
      ensures numLeft == old(numLeft) - 1
    {
      numLeft := numLeft - 1;
    }

    method AddResponse(buffer: Bytes, start: nat, len: nat)
      requires start + len <= |buffer|
      modifies this`response
      ensures response == old(response) + buffer[start..start + len]
    {
      response := response + buffer[start..start + len];
    }
  }

  datatype RequestNode = RequestNode(request: Bytes, states: seq<ResponseState>, counts: seq<nat>)

  // ---------------------------------------------------------------- collecting requests

  class Server {
    var node: Option<RequestNode>

    constructor ()
      ensures node == None
    {
      node := None;
    }

    function Pending(): RequestNode
      reads this
    {
      node.GetOr(RequestNode([], [], []))
    }

    method AddCommand(command: Bytes, numInstructions: nat, state: ResponseState)
      modifies this, state`numLeft
      ensures state.numLeft == old(state.numLeft) + 1
      ensures node == Some(RequestNode(
        old(Pending()).request + command, old(Pending()).states + [state], old(Pending()).counts + [numInstructions]))
    {
      state.IncrementPending();
      if node.None? {
        node := Some(RequestNode([], [], []));
      }
      var n := node.value;
      node := Some(RequestNode(n.request + command, n.states + [state], n.counts + [numInstructions]));
    }

    // After the wait: the collected node changes hands.
    method TakeRequestNode() returns (n: RequestNode)
      requires node.Some?
      modifies this
      ensures n == old(node).value && node == None
    {
      n := node.value;
      node := None;
    }
  }

  // ---------------------------------------------------------------- responses

  datatype HeaderResult = Short | Abort | End(pos: nat)

  function ParseHeader(buffer: Bytes, pos: nat): HeaderResult {
    if |buffer| < pos + HEADER_SIZE then Short
    else if buffer[pos] != RESPONSE then Abort
    else End(pos + HEADER_SIZE + FromBigEndian(buffer[pos + 8..pos + 12]))
  }

  predicate WellFormed(r: Bytes) {
    && |r| >= HEADER_SIZE && r[0] == RESPONSE
    && |r| == HEADER_SIZE + FromBigEndian(r[8..12])
    && (r[4] == 0 || (r[4] == 4 && |r| >= HEADER_SIZE + 4))
  }

  lemma HeaderAt(before: Bytes, r: Bytes, after: Bytes)
    requires WellFormed(r)
    ensures var buffer := before + r + after;
      && ParseHeader(buffer, |before|) == End(|before| + |r|)
      && |before| + |r| <= |buffer| && buffer[|before|..|before| + |r|] == r
      && buffer[|before| + 4] == r[4]
  {
    hide FromBigEndian;
    var buffer := before + r + after;
    assert buffer[|before|] == r[0];
    assert buffer[|before| + 8..|before| + 12] == r[8..12];
  }

  // ---------------------------------------------------------------- reads that end inside a response

  // Where the cutting loop is: at a position, out of the loop, or dead of an abort or an exception.
  datatype Walked = AtPos(pos: nat) | Over | Dead

  // One turn.  The loop also takes out what follows header and extras, and `substr` throws when that
  // begins behind the end; a header that is not there in full always comes to that.
  function Turn(buffer: Bytes, pos: nat): Walked {
    if pos >= |buffer| then Over
    else
      match ParseHeader(buffer, pos)
      case Short => Dead
      case Abort => Dead
      case End(end) =>
        var extra := buffer[pos + 4];
        if (extra != 0 && extra != 4) || pos + HEADER_SIZE + extra > |buffer| then Dead else AtPos(end)
  }

  function Walk(buffer: Bytes, turns: nat): Walked {
    if turns == 0 then AtPos(0)
    else
      match Walk(buffer, turns - 1)
      case AtPos(pos) => Turn(buffer, pos)
      case Over => Over
      case Dead => Dead
  }

  // A read: whole responses, then the beginning of one more, which may be empty.
  ghost predicate ReadOf(buffer: Bytes, batch: seq<Bytes>, cut: Bytes, tail: Bytes) {
    && (forall r :: r in batch ==> WellFormed(r))
    && WellFormed(cut) && tail < cut && buffer == Flatten(batch) + tail
  }

  lemma TurnAtResponse(before: Bytes, r: Bytes, after: Bytes)
    requires WellFormed(r)
    ensures Turn(before + r + after, |before|) == AtPos(|before| + |r|)
  {
    hide ParseHeader, FromBigEndian;
    HeaderAt(before, r, after);
  }

  lemma ReadAround(buffer: Bytes, batch: seq<Bytes>, cut: Bytes, tail: Bytes, i: nat)
    requires ReadOf(buffer, batch, cut, tail) && i < |batch|
    ensures buffer == Flatten(batch[..i]) + batch[i] + (Flatten(batch[i + 1..]) + tail)
    ensures WellFormed(batch[i])
  {
    hide WellFormed, Flatten;
    FlattenSplit(batch, i + 1);
    FlattenNext(batch, i);
  }

  lemma TurnAtWhole(buffer: Bytes, batch: seq<Bytes>, cut: Bytes, tail: Bytes, i: nat)
    requires ReadOf(buffer, batch, cut, tail) && i < |batch|
    ensures Turn(buffer, |Flatten(batch[..i])|) == AtPos(|Flatten(batch[..i + 1])|)
  {
    hide ReadOf, Turn, WellFormed, Flatten;
    ReadAround(buffer, batch, cut, tail, i);
    FlattenNext(batch, i);
    TurnAtResponse(Flatten(batch[..i]), batch[i], Flatten(batch[i + 1..]) + tail);
  }

  // At the cut: dead without header and extras, or at an end behind the buffer.
  lemma TurnAtCut(buffer: Bytes, batch: seq<Bytes>, cut: Bytes, tail: Bytes)
    requires ReadOf(buffer, batch, cut, tail)
    ensures Turn(buffer, |Flatten(batch)|) ==
      if tail == [] then Over
      else if |tail| < HEADER_SIZE + cut[4] then Dead
      else AtPos(|Flatten(batch)| + |cut|)
  {
    hide Flatten, FromBigEndian;
    var n := |Flatten(batch)|;
    if |tail| >= HEADER_SIZE {
      assert buffer[n] == cut[0] && buffer[n + 4] == cut[4];
      assert buffer[n + 8..n + 12] == cut[8..12];
    }
  }

  lemma {:induction false} WalkWhole(buffer: Bytes, batch: seq<Bytes>, cut: Bytes, tail: Bytes, m: nat)
    requires ReadOf(buffer, batch, cut, tail) && m <= |batch|
    ensures Walk(buffer, m) == AtPos(|Flatten(batch[..m])|)
    decreases m
  {
    hide ReadOf, Turn, Flatten;
    if m == 0 {
      FlattenNothing(batch);
    } else {
      WalkWhole(buffer, batch, cut, tail, m - 1);
      TurnAtWhole(buffer, batch, cut, tail, m - 1);
    }
  }

  lemma ReadLength(buffer: Bytes, batch: seq<Bytes>, cut: Bytes, tail: Bytes)
    requires ReadOf(buffer, batch, cut, tail)
    ensures |buffer| == |Flatten(batch)| + |tail| && |tail| < |cut| && |cut| >= HEADER_SIZE
  {
  }

  // Where the walk comes to a standstill: behind the whole responses it is at the cut, then it is over.
  lemma {:induction false} WalkStops(buffer: Bytes, batch: seq<Bytes>, cut: Bytes, tail: Bytes, m: nat)
    requires ReadOf(buffer, batch, cut, tail) && m > |batch|
    ensures tail == [] ==> Walk(buffer, m) == Over
    ensures 0 < |tail| < HEADER_SIZE + cut[4] ==> Walk(buffer, m) == Dead
    ensures |tail| >= HEADER_SIZE + cut[4] ==>
      Walk(buffer, m) == if m == |batch| + 1 then AtPos(|Flatten(batch)| + |cut|) else Over
    decreases m
  {
    hide ReadOf, Turn, Flatten, WellFormed;
    ReadLength(buffer, batch, cut, tail);
    if m == |batch| + 1 {
      WalkWhole(buffer, batch, cut, tail, |batch|);
      assert batch[..|batch|] == batch;
      TurnAtCut(buffer, batch, cut, tail);
    } else {
      WalkStops(buffer, batch, cut, tail, m - 1);
      TurnBehind(buffer, |Flatten(batch)| + |cut|);
    }
  }

  lemma TurnBehind(buffer: Bytes, pos: nat)
    ensures pos >= |buffer| ==> Turn(buffer, pos) == Over
  {
  }

  lemma BoundaryWithin(batch: seq<Bytes>, i: nat)
    requires i <= |batch|
    ensures |Flatten(batch[..i])| <= |Flatten(batch)|
  {
    FlattenSplit(batch, i);
  }

  /**
   The cutting loop comes out at the end of a read exactly when the read ends on a response
   boundary.  Otherwise, behind the whole responses, the thread dies if header and extras of the cut
   response are not there in full, and if they are the loop runs past the end of the buffer.
   */
  lemma CutExactlyIff(buffer: Bytes, batch: seq<Bytes>, cut: Bytes, tail: Bytes)
    requires ReadOf(buffer, batch, cut, tail)
    ensures (exists m :: Walk(buffer, m) == AtPos(|buffer|)) <==> tail == []
    ensures 0 < |tail| < HEADER_SIZE + cut[4] ==> Walk(buffer, |batch| + 1) == Dead
    ensures |tail| >= HEADER_SIZE + cut[4] ==>
      Walk(buffer, |batch| + 1) == AtPos(|buffer| - |tail| + |cut|) && Walk(buffer, |batch| + 2) == Over
  {
    hide ReadOf, Turn, Flatten, Walk, WellFormed;
    ReadLength(buffer, batch, cut, tail);
    WalkStops(buffer, batch, cut, tail, |batch| + 1);
    WalkStops(buffer, batch, cut, tail, |batch| + 2);
    if tail == [] {
      WalkWhole(buffer, batch, cut, tail, |batch|);
      assert batch[..|batch|] == batch;
    } else {
      forall m: nat
        ensures Walk(buffer, m) != AtPos(|buffer|)
      {
        NeverAtEnd(buffer, batch, cut, tail, m);
      }
    }
  }

  lemma NeverAtEnd(buffer: Bytes, batch: seq<Bytes>, cut: Bytes, tail: Bytes, m: nat)
    requires ReadOf(buffer, batch, cut, tail) && tail != []
    ensures Walk(buffer, m) != AtPos(|buffer|)
  {
    hide ReadOf, Turn, Flatten, Walk, WellFormed;
    ReadLength(buffer, batch, cut, tail);
    if m <= |batch| {
      WalkWhole(buffer, batch, cut, tail, m);
      BoundaryWithin(batch, m);
    } else {
      WalkStops(buffer, batch, cut, tail, m);
    }
  }

  /** A response with six bytes of body, four of them extras: it starts with 0x81, and bytes 8 to 11 tell its end. */
  lemma ResponseLayout(cas: Bytes, body: Bytes, after: Bytes)
    requires |cas| == 8 && |body| == 6
    ensures var r := [0x81, 0, 0, 0, 4, 0, 0, 0, 0, 0, 0, 6, 0, 0, 0, 0] + cas + body;
      WellFormed(r) && ParseHeader(r + after, 0) == End(30)
    ensures var r := [0x80, 0, 0, 0, 4, 0, 0, 0, 0, 0, 0, 6, 0, 0, 0, 0] + cas + body;
      !WellFormed(r) && ParseHeader(r + after, 0) == Abort
  {
    var r := [0x81, 0, 0, 0, 4, 0, 0, 0, 0, 0, 0, 6, 0, 0, 0, 0] + cas + body;
    assert r[8..12] == [0, 0, 0, 6];
    assert (r + after)[8..12] == [0, 0, 0, 6];
    SixIsSix();
    hide FromBigEndian;
  }

  lemma SixIsSix()
    ensures FromBigEndian([0, 0, 0, 6]) == 6
  {
    var bs: Bytes := [0, 0, 0, 6];
    assert bs[..3] == [0, 0, 0] && bs[..3][..2] == [0, 0] && bs[..3][..2][..1] == [0] && bs[..3][..2][..1][..0] == [];
    assert FromBigEndian(bs[..3][..2][..1]) == 0;
    assert FromBigEndian(bs[..3]) == 0;
  }

  // A response without body.
  const BARE: Bytes := [RESPONSE] + seq(23, _ => 0)

  /** A response without body and ten bytes of the next: the first is handed out, then the thread dies. */
  lemma CutInHeaderDies()
    ensures Walk(BARE + BARE[..10], 1) == AtPos(24)
    ensures Walk(BARE + BARE[..10], 2) == Dead
  {
    hide Walk;
    BareWellFormed();
    FlattenOne(BARE);
    CutExactlyIff(BARE + BARE[..10], [BARE], BARE, BARE[..10]);
    WalkWhole(BARE + BARE[..10], [BARE], BARE, BARE[..10], 1);
    assert [BARE][..1] == [BARE];
  }

  lemma BareWellFormed()
    ensures |BARE| == 24 && WellFormed(BARE) && BARE[4] == 0
  {
    var zeros := BARE[8..12];
    assert zeros == [0, 0, 0, 0];
    assert zeros[..3][..2][..1][..0] == [];
    assert FromBigEndian(zeros[..3][..2][..1]) == 0;
    assert FromBigEndian(zeros[..3]) == 0;
  }

  // ---------------------------------------------------------------- who gets what

  function Total(counts: seq<nat>): nat {
    if counts == [] then 0 else Total(counts[..|counts| - 1]) + counts[|counts| - 1]
  }

  // The command that the response number j answers.
  ghost predicate Answers(counts: seq<nat>, j: nat, i: nat) {
    i < |counts| && Total(counts[..i]) <= j < Total(counts[..i + 1])
  }

  lemma {:induction false} TotalMonotone(counts: seq<nat>, a: nat, b: nat)
    requires a <= b <= |counts|
    ensures Total(counts[..a]) <= Total(counts[..b])
    decreases b - a
  {
    if a < b {
      TotalMonotone(counts, a, b - 1);
      assert counts[..b][..b - 1] == counts[..b - 1];
    }
  }

  /** A response answers one command only. */
  lemma AnswersOne(counts: seq<nat>, j: nat, i: nat, i': nat)
    requires Answers(counts, j, i) && Answers(counts, j, i')
    ensures i == i'
  {
    if i < i' {
      TotalMonotone(counts, i + 1, i');
    } else if i' < i {
      TotalMonotone(counts, i' + 1, i);
    }
  }

  ghost predicate BelongsTo(states: seq<ResponseState>, counts: seq<nat>, j: nat, o: ResponseState)
    requires |states| == |counts|
  {
    exists i: nat :: Answers(counts, j, i) && states[i] == o
  }

  // The responses among the first j that answer commands of `o`, in order.
  ghost function Delivered(
    states: seq<ResponseState>, counts: seq<nat>, rs: seq<Bytes>, j: nat, o: ResponseState): Bytes
    requires |states| == |counts| && j <= |rs|
  {
    if j == 0 then []
    else
      Delivered(states, counts, rs, j - 1, o)
      + if BelongsTo(states, counts, j - 1, o) then rs[j - 1] else []
  }

  // How many of the first n commands belong to `o`.
  ghost function Commands(states: seq<ResponseState>, n: nat, o: ResponseState): nat
    requires n <= |states|
  {
    if n == 0 then 0 else Commands(states, n - 1, o) + if states[n - 1] == o then 1 else 0
  }

  lemma DeliveredNext(states: seq<ResponseState>, counts: seq<nat>, rs: seq<Bytes>, j: nat, i: nat, o: ResponseState)
    requires |states| == |counts| && j < |rs| && Answers(counts, j, i)
    ensures Delivered(states, counts, rs, j + 1, o)
         == Delivered(states, counts, rs, j, o) + if states[i] == o then rs[j] else []
  {
    forall i': nat | Answers(counts, j, i')
      ensures i' == i
    {
      AnswersOne(counts, j, i, i');
    }
    assert BelongsTo(states, counts, j, o) <==> states[i] == o;
  }

  function Clamp(j: nat, a: nat, b: nat): nat
    requires a <= b
  {
    if j < a then a else if j > b then b else j
  }

  lemma OnlyOwner(states: seq<ResponseState>, counts: seq<nat>, i: nat, o: ResponseState, j: nat)
    requires |states| == |counts| && i < |states|
    requires states[i] == o && forall k :: 0 <= k < |states| && k != i ==> states[k] != o
    ensures BelongsTo(states, counts, j, o) <==> Total(counts[..i]) <= j < Total(counts[..i + 1])
  {
    hide Total;
    assert Answers(counts, j, i) <==> Total(counts[..i]) <= j < Total(counts[..i + 1]);
  }

  lemma SliceNext(rs: seq<Bytes>, a: nat, j: nat)
    requires a <= j < |rs|
    ensures Flatten(rs[a..j + 1]) == Flatten(rs[a..j]) + rs[j]
  {
    var own := rs[a..j + 1];
    FlattenNext(own, j - a);
    assert own[..j - a] == rs[a..j] && own[..j - a + 1] == own;
  }

  lemma {:induction false} DeliveredSlice(
    states: seq<ResponseState>, counts: seq<nat>, rs: seq<Bytes>, i: nat, o: ResponseState, a: nat, b: nat, j: nat)
    requires |states| == |counts| && i < |states| && j <= |rs|
    requires states[i] == o && forall k :: 0 <= k < |states| && k != i ==> states[k] != o
    requires a == Total(counts[..i]) && b == Total(counts[..i + 1]) && a <= b <= |rs|
    ensures Delivered(states, counts, rs, j, o) == Flatten(rs[a..Clamp(j, a, b)])
    decreases j
  {
    hide BelongsTo, Total;
    if j > 0 {
      DeliveredSlice(states, counts, rs, i, o, a, b, j - 1);
      OnlyOwner(states, counts, i, o, j - 1);
      if a <= j - 1 < b {
        SliceNext(rs, a, j - 1);
      }
    }
  }

  /** A caller with one command receives its slice of the reply stream, no more and no less. */
  lemma OwnSlice(states: seq<ResponseState>, counts: seq<nat>, rs: seq<Bytes>, i: nat)
    requires |states| == |counts| && i < |states| && |rs| == Total(counts)
    requires forall k :: 0 <= k < |states| && k != i ==> states[k] != states[i]
    ensures Total(counts[..i]) <= Total(counts[..i + 1]) <= |rs|
    ensures Delivered(states, counts, rs, |rs|, states[i]) == Flatten(rs[Total(counts[..i])..Total(counts[..i + 1])])
  {
    hide Delivered, Total, Flatten;
    TotalMonotone(counts, i, i + 1);
    TotalMonotone(counts, i + 1, |counts|);
    assert counts[..|counts|] == counts;
    DeliveredSlice(states, counts, rs, i, states[i], Total(counts[..i]), Total(counts[..i + 1]), |rs|);
  }

  // ---------------------------------------------------------------- the reply loop

  // Response j is the next, command `idx` has `left` responses to come.
  ghost predicate At(counts: seq<nat>, j: nat, idx: nat, left: nat) {
    && idx <= |counts|
    && (idx < |counts| ==> 0 < left <= counts[idx] && j + left == Total(counts[..idx + 1]))
    && (idx == |counts| ==> j == Total(counts))
  }

  lemma AtAnswers(counts: seq<nat>, j: nat, idx: nat, left: nat)
    requires At(counts, j, idx, left) && idx < |counts|
    ensures Answers(counts, j, idx)
  {
    assert counts[..idx + 1][..idx] == counts[..idx];
  }

  lemma AtNext(counts: seq<nat>, j: nat, idx: nat, left: nat)
    requires forall i :: 0 <= i < |counts| ==> counts[i] > 0
    requires At(counts, j, idx, left) && idx < |counts|
    ensures left > 1 ==> At(counts, j + 1, idx, left - 1)
    ensures left == 1 && idx + 1 < |counts| ==> At(counts, j + 1, idx + 1, counts[idx + 1])
    ensures left == 1 && idx + 1 == |counts| ==> At(counts, j + 1, idx + 1, 0)
  {
    if idx + 1 < |counts| {
      assert counts[..idx + 2][..idx + 1] == counts[..idx + 1];
    } else {
      assert counts[..idx + 1] == counts;
    }
  }

  lemma AtBehind(counts: seq<nat>, j: nat, idx: nat, left: nat)
    requires At(counts, j, idx, left)
    ensures j < Total(counts) <==> idx < |counts|
    ensures idx < |counts| ==> left > 0
  {
    assert counts[..|counts|] == counts;
    if idx < |counts| {
      TotalMonotone(counts, idx + 1, |counts|);
    }
  }

  // What the callers held before the first response.
  datatype Start = Start(response: map<ResponseState, Bytes>, numLeft: map<ResponseState, int>)

  /** Everything delivered so far, and nothing else, has reached each caller. */
  ghost predicate Progress(n: RequestNode, rs: seq<Bytes>, j: nat, idx: nat, start: Start)
    requires |n.states| == |n.counts| && j <= |rs| && idx <= |n.states|
    reads n.states
  {
    forall o :: o in n.states ==>
      && o in start.response && o in start.numLeft
      && o.response == start.response[o] + Delivered(n.states, n.counts, rs, j, o)
      && o.numLeft == start.numLeft[o] - Commands(n.states, idx, o)
  }

  // The next buffer continues the response sequence.
  lemma BatchFollows(batches: seq<seq<Bytes>>, used: nat)
    requires used < |batches|
    ensures var j, m := |Flatten(batches[..used])|, |batches[used]|;
      && j + m == |Flatten(batches[..used + 1])| <= |Flatten(batches)|
      && Flatten(batches)[j..j + m] == batches[used]
  {
    hide Flatten;
    var now, next := Flatten(batches[..used]), Flatten(batches[..used + 1]);
    FlattenNext(batches, used);
    FlattenSplit(batches, used + 1);
    var all := Flatten(batches);
    assert all[..|next|] == next;
    assert all[|now|..|next|] == next[|now|..];
  }

  /**
   The reply loop for one request node.  `buffers` are the buffers that successive reads return; each
   is a concatenation of whole well-formed responses, and there is one response per instruction.
   Every caller receives exactly the responses to its own commands, in order; its counter drops once
   per command; and the loop stops with the last response.
   */
  method ProcessReplies(n: RequestNode, buffers: seq<Bytes>, ghost batches: seq<seq<Bytes>>, ghost rs: seq<Bytes>)
    returns (used: nat)
    requires |n.states| == |n.counts| > 0
    requires forall i :: 0 <= i < |n.counts| ==> n.counts[i] > 0
    requires |buffers| == |batches| && forall i :: 0 <= i < |buffers| ==> buffers[i] == Flatten(batches[i])
    requires rs == Flatten(batches) && |rs| == Total(n.counts) && forall r :: r in rs ==> WellFormed(r)
    modifies n.states
    ensures used <= |buffers| && Flatten(batches[..used]) == rs
    ensures forall o :: o in n.states ==>
      && o.response == old(o.response) + Delivered(n.states, n.counts, rs, |rs|, o)
      && o.numLeft == old(o.numLeft) - Commands(n.states, |n.states|, o)
  {
    hide WellFormed, Flatten, Answers, Total, At;
    used := 0;
    var idx: nat, left: nat := 0, n.counts[0];
    ghost var j: nat := 0;
    ghost var start := Start(map o | o in n.states :: o.response, map o | o in n.states :: o.numLeft);
    StartOf(n.counts, batches);
    while idx < |n.states|
      invariant used <= |buffers| && idx <= |n.states| && j <= |rs|
      invariant j == |Flatten(batches[..used])|
      invariant At(n.counts, j, idx, left)
      invariant Progress(n, rs, j, idx, start)
      decreases |buffers| - used
    {
      AtBehind(n.counts, j, idx, left);
      MoreToRead(batches, used);
      BatchFollows(batches, used);
      idx, left := ProcessBuffer(n, buffers[used], idx, left, batches[used], rs, j, start);
      j := j + |batches[used]|;
      used := used + 1;
    }
    AtBehind(n.counts, j, idx, left);
    FlattenSplit(batches, used);
  }

  // ---------------------------------------------------------------- reads are short

  // The size of the read buffer.
  const READ_SIZE := 512

  /** Reads of at most 512 bytes that all end on response boundaries and make up these responses. */
  ghost predicate BoundaryReads(batches: seq<seq<Bytes>>, rs: seq<Bytes>) {
    Flatten(batches) == rs && forall i :: 0 <= i < |batches| ==> |Flatten(batches[i])| <= READ_SIZE
  }

  lemma {:induction false} FlattenMember(batches: seq<seq<Bytes>>, r: Bytes) returns (i: nat)
    requires r in Flatten(batches)
    ensures i < |batches| && r in batches[i]
    decreases |batches|
  {
    i := |batches| - 1;
    if r !in batches[i] {
      i := FlattenMember(batches[..i], r);
    }
  }

  lemma PartNoLonger(rs: seq<Bytes>, i: nat)
    requires i < |rs|
    ensures |rs[i]| <= |Flatten(rs)|
  {
    hide Flatten;
    FlattenNext(rs, i);
    FlattenSplit(rs, i + 1);
  }

  lemma {:induction false} OneByOne(rs: seq<Bytes>) returns (batches: seq<seq<Bytes>>)
    requires forall r :: r in rs ==> |r| <= READ_SIZE
    ensures BoundaryReads(batches, rs)
    decreases |rs|
  {
    if rs == [] {
      batches := [];
    } else {
      var r := rs[|rs| - 1];
      var before := OneByOne(rs[..|rs| - 1]);
      batches := before + [[r]];
      assert batches[..|before|] == before;
      FlattenOne(r);
    }
  }

  /** Whatever the network does, reads can all end on response boundaries only if no response exceeds 512 bytes. */
  lemma BoundaryReadsIff(rs: seq<Bytes>)
    ensures (exists batches :: BoundaryReads(batches, rs)) <==> forall r :: r in rs ==> |r| <= 512
  {
    if forall r :: r in rs ==> |r| <= READ_SIZE {
      var batches := OneByOne(rs);
    } else {
      var r :| r in rs && |r| > READ_SIZE;
      forall batches
        ensures !BoundaryReads(batches, rs)
      {
        if Flatten(batches) == rs {
          var i := FlattenMember(batches, r);
          var j :| 0 <= j < |batches[i]| && batches[i][j] == r;
          PartNoLonger(batches[i], j);
        }
      }
    }
  }

  lemma StartOf(counts: seq<nat>, batches: seq<seq<Bytes>>)
    requires counts != [] && counts[0] > 0
    ensures At(counts, 0, 0, counts[0]) && |Flatten(batches[..0])| == 0
  {
    assert counts[..1][..0] == [];
    assert Total(counts[..1]) == counts[0];
  }

  lemma MoreToRead(batches: seq<seq<Bytes>>, used: nat)
    requires used <= |batches| && |Flatten(batches[..used])| < |Flatten(batches)|
    ensures used < |batches|
  {
    assert batches[..|batches|] == batches;
  }

  /** One buffer of whole responses, starting with response number j. */
  method ProcessBuffer(
    n: RequestNode, buffer: Bytes, idx0: nat, left0: nat,
    ghost batch: seq<Bytes>, ghost rs: seq<Bytes>, ghost j: nat, ghost start: Start)
    returns (idx: nat, left: nat)
    requires |n.states| == |n.counts| && idx0 <= |n.states|
    requires forall i :: 0 <= i < |n.counts| ==> n.counts[i] > 0
    requires |rs| == Total(n.counts) && forall r :: r in rs ==> WellFormed(r)
    requires j + |batch| <= |rs| && batch == rs[j..j + |batch|] && buffer == Flatten(batch)
    requires At(n.counts, j, idx0, left0) && Progress(n, rs, j, idx0, start)
    modifies n.states
    ensures idx <= |n.states| && At(n.counts, j + |batch|, idx, left)
    ensures Progress(n, rs, j + |batch|, idx, start)
  {
    hide WellFormed, Flatten, Answers, Total, At, ParseHeader, Progress;
    idx, left := idx0, left0;
    var pos := 0;
    ghost var m := 0;
    FlattenNothing(batch);
    while pos < |buffer|
      invariant m <= |batch| && pos == |Flatten(batch[..m])| <= |buffer|
      invariant idx <= |n.states| && At(n.counts, j + m, idx, left)
      invariant Progress(n, rs, j + m, idx, start)
      decreases |batch| - m
    {
      NextResponse(batch, m, rs, j);
      AtBehind(n.counts, j + m, idx, left);
      var r := ParseHeader(buffer, pos);
      var endPos := r.pos;
      ghost var response := rs[j + m];
      assert buffer[pos..endPos] == response;
      Deliver(n, buffer, pos, endPos - pos, idx, rs, j + m, left, start);
      AtNext(n.counts, j + m, idx, left);
      left := left - 1;
      if left == 0 {
        CommandDone(n, idx, rs, j + m + 1, start);
        idx := idx + 1;
        left := if idx < |n.counts| then n.counts[idx] else 0;
      }
      pos := endPos;
      m := m + 1;
    }
    AllRead(batch, m, rs, j);
  }

  lemma AllRead(batch: seq<Bytes>, m: nat, rs: seq<Bytes>, j: nat)
    requires m <= |batch| && j + |batch| <= |rs| && batch == rs[j..j + |batch|] && forall r :: r in rs ==> WellFormed(r)
    ensures |Flatten(batch[..m])| >= |Flatten(batch)| ==> m == |batch|
  {
    if m < |batch| {
      FlattenNext(batch, m);
      FlattenSplit(batch, m + 1);
      assert batch[m] == rs[j + m] && WellFormed(rs[j + m]);
    }
  }

  lemma NextResponse(batch: seq<Bytes>, m: nat, rs: seq<Bytes>, j: nat)
    requires m <= |batch| && j + |batch| <= |rs| && batch == rs[j..j + |batch|] && forall r :: r in rs ==> WellFormed(r)
    requires |Flatten(batch[..m])| < |Flatten(batch)|
    ensures m < |batch|
    ensures var pos, r := |Flatten(batch[..m])|, rs[j + m];
      && ParseHeader(Flatten(batch), pos) == End(pos + |r|)
      && pos + |r| == |Flatten(batch[..m + 1])| <= |Flatten(batch)|
      && Flatten(batch)[pos..pos + |r|] == r
  {
    assert batch[..|batch|] == batch;
    var before, after := Flatten(batch[..m]), Flatten(batch[m + 1..]);
    var r := rs[j + m];
    assert batch[m] == r && WellFormed(r);
    hide WellFormed, Flatten;
    FlattenSplit(batch, m + 1);
    FlattenNext(batch, m);
    HeaderAt(before, r, after);
  }

  /** Response j goes to the caller of the command it answers. */
  method Deliver(
    n: RequestNode, buffer: Bytes, pos: nat, len: nat, idx: nat,
    ghost rs: seq<Bytes>, ghost j: nat, ghost left: nat, ghost start: Start)
    requires |n.states| == |n.counts| && idx < |n.states| && pos + len <= |buffer|
    requires j < |rs| && buffer[pos..pos + len] == rs[j]
    requires At(n.counts, j, idx, left) && Progress(n, rs, j, idx, start)
    modifies n.states
    ensures Progress(n, rs, j + 1, idx, start)
  {
    hide At, Answers;
    AtAnswers(n.counts, j, idx, left);
    forall o
      ensures Delivered(n.states, n.counts, rs, j + 1, o)
           == Delivered(n.states, n.counts, rs, j, o) + if n.states[idx] == o then rs[j] else []
    {
      DeliveredNext(n.states, n.counts, rs, j, idx, o);
    }
    n.states[idx].AddResponse(buffer, pos, len);
  }

  /** The command is complete: its caller has one less to wait for. */
  method CommandDone(n: RequestNode, idx: nat, ghost rs: seq<Bytes>, ghost j: nat, ghost start: Start)
    requires |n.states| == |n.counts| && idx < |n.states| && j <= |rs|
    requires Progress(n, rs, j, idx, start)
    modifies n.states
    ensures Progress(n, rs, j, idx + 1, start)
  {
    hide Delivered;
    n.states[idx].DecrementPending();
  }
}
