/**
 The per-flow rings and the wait queue of `examples/aio_aclread/aio_aclread.c` (own ring, no
 `USE_RTE_RING`) as values: what one call does to them and what every call keeps.
 */
module WaitRing {
  import opened Options

  type Packet = nat

  const RING_SIZE := 2048
  const HIGH_WATERMARK := 1638
  const LOW_WATERMARK := 1024
  const FLOWS := 1024

  // `status` is RING_BUF_NORMAL or RING_BUF_OVER_HWM; RING_BUF_OVERFLOW has the value of the latter.
  const NORMAL := 0
  const OVER := 1

  // per_flow_ring_buffer: the packets lie from the read head up to the write head.
  datatype Ring = Ring(count: int, readHead: int, writeHead: int, status: int, slots: seq<Option<Packet>>)

  // Calls to mark_flow_for_backpressure and clear_flow_for_backpressure.
  datatype Signal = Mark | Clear

  const EMPTY_RING := Ring(0, 0, 0, NORMAL, seq(RING_SIZE + 1, _ => None))

  function Advance(head: int): int { if head + 1 == RING_SIZE then 0 else head + 1 }

  // The slot `i` places behind the read head.
  function SlotAt(head: int, i: int): int { if head + i < RING_SIZE then head + i else head + i - RING_SIZE }

  function Distance(readHead: int, writeHead: int): int {
    if readHead <= writeHead then writeHead - readHead else writeHead - readHead + RING_SIZE
  }

  ghost predicate ValidRing(r: Ring) {
    && |r.slots| == RING_SIZE + 1
    && 0 <= r.readHead < RING_SIZE && 0 <= r.writeHead < RING_SIZE
    && r.count == Distance(r.readHead, r.writeHead)
    && (forall i | 0 <= i < r.count :: r.slots[SlotAt(r.readHead, i)].Some?)
    && (r.status == NORMAL || r.status == OVER)
    && (r.status == OVER ==> r.count > LOW_WATERMARK)
    && (r.status == NORMAL ==> r.count < HIGH_WATERMARK)
  }

  // The waiting packets in the order in which they will leave.
  ghost function Contents(r: Ring): (s: seq<Packet>)
    requires ValidRing(r)
    ensures |s| == r.count
  {
    seq(r.count, i requires 0 <= i < r.count => r.slots[SlotAt(r.readHead, i)].value)
  }

  lemma CountIsDistanceModulo(r: Ring)
    requires ValidRing(r)
    ensures r.count == (r.writeHead - r.readHead) % 2048 && 0 <= r.count <= 2047
  {
  }

  // ---- One ring ----

  predicate IsFull(r: Ring) { (r.writeHead + 1) % RING_SIZE == r.readHead }

  datatype AddResult = AddResult(ring: Ring, code: int, signals: seq<Signal>)

  // What add_flow_pkt_to_pre_io_wait_queue does to the ring of the flow.
  ghost function Added(r: Ring, p: Packet): AddResult
    requires ValidRing(r)
  {
    if IsFull(r) then
      if r.status != OVER then AddResult(r.(status := OVER), 1, [Mark]) else AddResult(r, 1, [])
    else
      var r1 := r.(slots := r.slots[r.writeHead := Some(p)], count := r.count + 1, writeHead := Advance(r.writeHead));
      if r1.count >= HIGH_WATERMARK && r1.status == NORMAL then AddResult(r1.(status := OVER), 0, [Mark])
      else AddResult(r1, 0, [])
  }

  datatype NextResult = NextResult(ring: Ring, pkt: Option<Packet>, signals: seq<Signal>)

  // What get_next_pkt_for_flow_entry_from_pre_io_wait_queue does to the ring of the flow.
  ghost function Removed(r: Ring): NextResult
    requires ValidRing(r)
  {
    if r.writeHead == r.readHead || r.slots[r.readHead].None? then NextResult(r, None, [])
    else
      var r1 := r.(slots := r.slots[r.readHead := None], readHead := Advance(r.readHead), count := r.count - 1);
      if r1.count != 0 && r1.count <= LOW_WATERMARK && r1.status != NORMAL then
        NextResult(r1.(status := NORMAL), r.slots[r.readHead], [Clear])
      else NextResult(r1, r.slots[r.readHead], [])
  }

  // A packet is refused exactly when 2047 wait; otherwise it goes to the end. A refusal changes
  // nothing: the flow has long been marked. The mark comes with the 1638th packet of an unmarked flow.
  lemma AddedIs(r: Ring, p: Packet)
    requires ValidRing(r)
    ensures var a := Added(r, p);
            && ValidRing(a.ring)
            && (a.code == 0 || a.code == 1)
            && (a.code == 1 <==> r.count == 2047)
            && (a.code == 1 ==> a.ring == r)
            && (a.code == 0 ==> Contents(a.ring) == Contents(r) + [p])
            && a.signals == (if r.status == NORMAL && r.count == 1637 then [Mark] else [])
            && (a.ring.status == OVER <==> r.status == OVER || a.signals == [Mark])
  {
    var a := Added(r, p);
    if a.code == 0 {
      forall i | 0 <= i < a.ring.count
        ensures a.ring.slots[SlotAt(a.ring.readHead, i)] ==
                if i < r.count then r.slots[SlotAt(r.readHead, i)] else Some(p)
      {
      }
      assert Contents(a.ring) == Contents(r) + [p];
    }
  }

  // The oldest packet leaves. The mark is cleared when 1024 packets are left.
  lemma RemovedIs(r: Ring)
    requires ValidRing(r)
    ensures var n := Removed(r);
            && ValidRing(n.ring)
            && (r.count == 0 ==> n == NextResult(r, None, []))
            && (r.count > 0 ==> n.pkt == Some(Contents(r)[0]) && Contents(n.ring) == Contents(r)[1..])
            && n.signals == (if r.status == OVER && r.count == 1025 then [Clear] else [])
            && (n.ring.status == OVER <==> r.status == OVER && n.signals == [])
  {
    var n := Removed(r);
    if r.count > 0 {
      assert SlotAt(r.readHead, 0) == r.readHead;
      forall i | 0 <= i < n.ring.count
        ensures n.ring.slots[SlotAt(n.ring.readHead, i)] == r.slots[SlotAt(r.readHead, i + 1)]
      {
      }
      assert Contents(n.ring) == Contents(r)[1..];
    }
  }

  // ---- All flows ----

  datatype Queue = Queue(waitListCount: int, rings: seq<Ring>)

  ghost function NonEmpty(rings: seq<Ring>): nat {
    if |rings| == 0 then 0 else NonEmpty(rings[..|rings| - 1]) + (if rings[|rings| - 1].count != 0 then 1 else 0)
  }

  ghost predicate ValidQueue(q: Queue) {
    && |q.rings| == FLOWS
    && (forall f | 0 <= f < FLOWS :: ValidRing(q.rings[f]))
    && q.waitListCount == NonEmpty(q.rings)
  }

  lemma RingShape(q: Queue, f: nat)
    requires ValidQueue(q) && f < FLOWS
    ensures |q.rings| == FLOWS && ValidRing(q.rings[f]) && |q.rings[f].slots| == RING_SIZE + 1
    ensures 0 <= q.rings[f].readHead < RING_SIZE && 0 <= q.rings[f].writeHead < RING_SIZE
  {
  }

  lemma {:induction false} NonEmptyUpdate(rings: seq<Ring>, f: nat, r: Ring)
    requires f < |rings|
    ensures NonEmpty(rings[f := r]) ==
            NonEmpty(rings) - (if rings[f].count != 0 then 1 else 0) + (if r.count != 0 then 1 else 0)
  {
    var last := |rings| - 1;
    if f < last {
      NonEmptyUpdate(rings[..last], f, r);
      assert rings[f := r][..last] == rings[..last][f := r];
    } else {
      assert rings[f := r][..last] == rings[..last];
    }
  }

  lemma {:induction false} NonEmptyPositive(rings: seq<Ring>)
    ensures NonEmpty(rings) == 0 <==> forall f | 0 <= f < |rings| :: rings[f].count == 0
  {
    if |rings| > 0 {
      var last := |rings| - 1;
      NonEmptyPositive(rings[..last]);
      if forall f | 0 <= f < last :: rings[..last][f].count == 0 {
        assert forall f | 0 <= f < last :: rings[f].count == rings[..last][f].count;
      } else {
        var f :| 0 <= f < last && rings[..last][f].count != 0;
        assert rings[f].count != 0;
      }
    }
  }

  lemma {:induction false} NonEmptyOfEmpty(rings: seq<Ring>)
    requires forall f | 0 <= f < |rings| :: rings[f] == EMPTY_RING
    ensures NonEmpty(rings) == 0
  {
    NonEmptyPositive(rings);
  }

  const EMPTY_QUEUE := Queue(0, seq(FLOWS, _ => EMPTY_RING))

  lemma EmptyQueueIsValid()
    ensures ValidQueue(EMPTY_QUEUE)
    ensures forall f | 0 <= f < FLOWS :: Contents(EMPTY_QUEUE.rings[f]) == []
  {
    assert ValidRing(EMPTY_RING);
    NonEmptyOfEmpty(EMPTY_QUEUE.rings);
  }

  // add_flow_pkt_to_pre_io_wait_queue
  ghost function QueueAdd(q: Queue, f: nat, p: Packet): Queue
    requires ValidQueue(q) && f < FLOWS
  {
    var r := q.rings[f];
    Queue(if !IsFull(r) && r.count == 0 then q.waitListCount + 1 else q.waitListCount, q.rings[f := Added(r, p).ring])
  }

  // get_next_pkt_for_flow_entry_from_pre_io_wait_queue
  ghost function QueueRemove(q: Queue, f: nat): Queue
    requires ValidQueue(q) && f < FLOWS
  {
    var n := Removed(q.rings[f]);
    Queue(if n.pkt.Some? && n.ring.count == 0 then q.waitListCount - 1 else q.waitListCount, q.rings[f := n.ring])
  }

  // Adding keeps the queue valid, in particular the count of flows that have packets waiting.
  lemma QueueAddKeepsValid(q: Queue, f: nat, p: Packet)
    requires ValidQueue(q) && f < FLOWS
    ensures ValidQueue(QueueAdd(q, f, p))
  {
    AddedIs(q.rings[f], p);
    NonEmptyUpdate(q.rings, f, Added(q.rings[f], p).ring);
  }

  lemma QueueRemoveKeepsValid(q: Queue, f: nat)
    requires ValidQueue(q) && f < FLOWS
    ensures ValidQueue(QueueRemove(q, f))
  {
    RemovedIs(q.rings[f]);
    NonEmptyUpdate(q.rings, f, Removed(q.rings[f]).ring);
  }

  // The first flow, by index, that has packets waiting.
  function FirstWaiting(rings: seq<Ring>, from: nat): (f: nat)
    requires from <= |rings|
    ensures from <= f <= |rings|
    ensures f < |rings| ==> rings[f].count != 0
    ensures forall g | from <= g < f :: rings[g].count == 0
    decreases |rings| - from
  {
    if from == |rings| || rings[from].count != 0 then from else FirstWaiting(rings, from + 1)
  }

  // The count of waiting flows tells whether there is one.
  lemma WaitingIffCounted(q: Queue)
    requires ValidQueue(q)
    ensures q.waitListCount == 0 <==> FirstWaiting(q.rings, 0) == FLOWS
  {
    NonEmptyPositive(q.rings);
  }
}
