/** The packets of the router and the producer/consumer queue the workers take them from. */
module WorkQueue {
  import opened Wire
  import opened Messages

  datatype Kind = GET | SET | INCREMENT | SERVER_LIST | STATS | UNKNOWN

  // `id` numbers the packets in order of arrival; `async` tells which socket it came in by.
  datatype Packet = Packet(id: nat, async: bool, frameIds: seq<Bytes>, instruction: Instruction) {
    function GetType(): Kind {
      if instruction.getKeys != [] then GET
      else if instruction.setKeys != [] then SET
      else if instruction.incrKeys != [] then INCREMENT
      else if instruction.servers != [] then SERVER_LIST
      else if instruction.stats.Some? then STATS
      else UNKNOWN
    }

    predicate IsGet() { instruction.getKeys != [] }
  }

  const MAX_KEYS_PER_REQUEST := 10000

  function KeyTotal(batch: seq<Packet>): nat {
    if batch == [] then 0 else KeyTotal(batch[..|batch| - 1]) + |batch[|batch| - 1].instruction.getKeys|
  }

  /** A lone packet that is not a GET, or GETs that reach the key limit with the last one at the earliest. */
  predicate GoodBatch(batch: seq<Packet>) {
    || (|batch| == 1 && !batch[0].IsGet())
    || (batch != [] && (forall i :: 0 <= i < |batch| ==> batch[i].IsGet())
        && KeyTotal(batch[..|batch| - 1]) < MAX_KEYS_PER_REQUEST)
  }

  // Nothing more could have been taken.
  predicate Longest(queue: seq<Packet>, n: nat)
    requires 0 < n <= |queue|
  {
    || !queue[0].IsGet()
    || n == |queue|
    || !queue[n].IsGet()
    || KeyTotal(queue[..n]) >= MAX_KEYS_PER_REQUEST
  }

  /** The unique batch size that both conditions allow. */
  function BatchSize(queue: seq<Packet>): (n: nat)
    requires queue != []
    ensures 0 < n <= |queue|
    ensures GoodBatch(queue[..n]) && Longest(queue, n)
  {
    if !queue[0].IsGet() then
      assert queue[..1][0] == queue[0];
      1
    else
      assert queue[..1][..0] == queue[..0];
      assert KeyTotal(queue[..0]) == 0;
      Extend(queue, 1)
  }

  function Extend(queue: seq<Packet>, n: nat): (m: nat)
    requires 0 < n <= |queue|
    requires forall i :: 0 <= i < n ==> queue[i].IsGet()
    requires KeyTotal(queue[..n - 1]) < MAX_KEYS_PER_REQUEST
    ensures n <= m <= |queue|
    ensures GoodBatch(queue[..m]) && Longest(queue, m)
    decreases |queue| - n
  {
    if n == |queue| || !queue[n].IsGet() || KeyTotal(queue[..n]) >= MAX_KEYS_PER_REQUEST then
      assert queue[..n][..n - 1] == queue[..n - 1];
      n
    else
      Extend(queue, n + 1)
  }

  lemma {:induction false} KeyTotalMonotone(queue: seq<Packet>, m: nat, n: nat)
    requires m <= n <= |queue|
    ensures KeyTotal(queue[..m]) <= KeyTotal(queue[..n])
    decreases n - m
  {
    if m < n {
      KeyTotalMonotone(queue, m, n - 1);
      assert queue[..n][..n - 1] == queue[..n - 1];
    }
  }

  /** A well-formed longest batch is determined by the queue. */
  lemma BatchSizeIsUnique(queue: seq<Packet>, m: nat, n: nat)
    requires 0 < m <= n <= |queue|
    requires GoodBatch(queue[..m]) && Longest(queue, m)
    requires GoodBatch(queue[..n]) && Longest(queue, n)
    ensures m == n
  {
    assert queue[..m][0] == queue[0] && queue[..n][0] == queue[0];
    if queue[0].IsGet() && m < n {
      assert queue[..n][m] == queue[m];
      assert queue[..n][..n - 1] == queue[..n - 1];
      KeyTotalMonotone(queue, m, n - 1);
    }
  }

  /** A GET of 10000 keys or more is taken alone; with 9999 the next GET still joins it, and no third one. */
  lemma BatchLimit(queue: seq<Packet>)
    requires queue != [] && queue[0].instruction.getKeys != []
    ensures |queue[0].instruction.getKeys| >= 10000 ==> BatchSize(queue) == 1
    ensures |queue[0].instruction.getKeys| == 9999 && |queue| >= 2 && queue[1].instruction.getKeys != [] ==>
      BatchSize(queue) == 2
  {
    hide BatchSize;
    var n := BatchSize(queue);
    assert queue[..1][0] == queue[0] && queue[..1][..0] == [] && queue[..n][0] == queue[0];
    assert KeyTotal(queue[..1]) == |queue[0].instruction.getKeys|;
    assert queue[..n][..n - 1] == queue[..n - 1];
    if n > 1 {
      KeyTotalMonotone(queue, 1, n - 1);
    }
    if n > 2 {
      assert queue[..n][1] == queue[1];
      assert queue[..2][..1] == queue[..1];
      KeyTotalMonotone(queue, 2, n - 1);
    }
  }

  class PCQueue {
    var packets: seq<Packet>
    var done: bool

    constructor ()
      ensures packets == [] && !done
    {
      packets, done := [], false;
    }

    method Push(p: Packet)
      modifies this`packets
      ensures packets == old(packets) + [p]
    {
      packets := packets + [p];
    }

    /** The part of BlockingPop after the wait: takes one batch and tells whether to wake another worker. */
    method Pop() returns (batch: seq<Packet>, notify: bool)
      requires done || packets != []
      modifies this`packets
      ensures batch + packets == old(packets)
      ensures done ==> batch == [] && !notify
      ensures !done ==> |batch| == BatchSize(old(packets)) && GoodBatch(batch) && notify == (packets != [])
    {
      hide KeyTotal, GoodBatch, BatchSize, Longest, Taken;
      batch, notify := [], false;
      if done {
        return;
      }
      ghost var queue := packets;
      var numGetKeys: nat := 0;
      NoKeysYet(queue);
      while packets != [] && numGetKeys < MAX_KEYS_PER_REQUEST
        invariant |batch| <= |queue| && batch == queue[..|batch|] && packets == queue[|batch|..]
        invariant Taken(queue, |batch|, numGetKeys)
        decreases |packets|
      {
        var p := packets[0];
        if !p.IsGet() {
          if numGetKeys == 0 {
            NoKeys(queue, |batch|, numGetKeys);
            packets := packets[1..];
            batch := batch + [p];
          }
          break;
        } else {
          TakenNext(queue, |batch|, numGetKeys);
          packets := packets[1..];
          batch := batch + [p];
          numGetKeys := numGetKeys + |p.instruction.getKeys|;
        }
      }
      TakenAll(queue, |batch|, numGetKeys);
      notify := packets != [];
    }
  }

  // The first n packets are GETs with `total` keys, and the limit was not reached before the last.
  predicate Taken(queue: seq<Packet>, n: nat, total: nat)
    requires n <= |queue|
  {
    && total == KeyTotal(queue[..n])
    && (forall i :: 0 <= i < n ==> queue[i].IsGet())
    && (n > 0 ==> KeyTotal(queue[..n - 1]) < MAX_KEYS_PER_REQUEST)
  }

  lemma NoKeysYet(queue: seq<Packet>)
    ensures Taken(queue, 0, 0)
  {
  }

  lemma TakenNext(queue: seq<Packet>, n: nat, total: nat)
    requires n < |queue| && Taken(queue, n, total) && queue[n].IsGet() && total < MAX_KEYS_PER_REQUEST
    ensures Taken(queue, n + 1, total + |queue[n].instruction.getKeys|)
  {
    assert queue[..n + 1][..n] == queue[..n];
  }

  // GET packets name at least one key each.
  lemma NoKeys(queue: seq<Packet>, n: nat, total: nat)
    requires n <= |queue| && Taken(queue, n, total)
    ensures total == 0 <==> n == 0
  {
    if n > 0 {
      assert queue[..n][n - 1] == queue[n - 1];
    }
  }

  lemma TakenAll(queue: seq<Packet>, n: nat, total: nat)
    requires queue != [] && n <= |queue|
    requires (n == 1 && !queue[0].IsGet()) ||
      (Taken(queue, n, total) &&
        (n == |queue| || total >= MAX_KEYS_PER_REQUEST || (!queue[n].IsGet() && total != 0)))
    ensures n == BatchSize(queue) && GoodBatch(queue[..n])
  {
    hide BatchSize;
    assert KeyTotal(queue[..0]) == 0;
    assert n > 0;
    assert queue[..n][0] == queue[0];
    assert queue[..n][..n - 1] == queue[..n - 1];
    var m := BatchSize(queue);
    if n <= m {
      BatchSizeIsUnique(queue, n, m);
    } else {
      BatchSizeIsUnique(queue, m, n);
    }
  }
}
