/**
 The asynchronous reader of `examples/aio_aclread/aio_aclread.c` as a transition system. The NF
 thread runs the packet handler or the explicit callback; I/O completions run on other threads and
 may come between any two of its steps, also between the acceptance of a request by aio_read and
 the assignment of BUF_SUBMITTED that follows it.
 */
module AioSystem {
  import opened Options
  import opened WaitRing

  datatype BufState = FREE | IN_USE | SUBMITTED
  datatype Buf = Buf(state: BufState, pkt: Option<Packet>)

  // What the NF thread is working on.
  datatype Job = Handle(pkt: Packet, flow: nat) | Callback

  // Where the NF thread stands. `freed` are the buffers that completions have freed during the scan.
  datatype Pc =
    | Idle
    | Scan(job: Job, next: nat, freed: set<nat>)  // get_aio_buffer_from_aio_buf_pool is about to look at `next`
    | Got(job: Job, buf: nat)                     // the buffer is IN_USE, no packet chosen yet
    | Submit(job: Job, buf: nat)                  // the packet is in the buffer, aio_read comes next
    | Issued(job: Job, buf: nat)                  // aio_read has accepted, `state = BUF_SUBMITTED` comes next

  // What has happened so far: packets that came for I/O, and what became of them. Packets are
  // submitted when they are passed to aio_read, and lost if it refuses the request.
  datatype Log = Log(arrived: seq<Packet>, accepted: seq<Packet>, dropped: seq<Packet>,
                     submitted: seq<Packet>, returned: seq<Packet>, lost: seq<Packet>, signals: seq<seq<Signal>>)

  datatype Sys = Sys(queue: Queue, bufs: seq<Buf>, inFlight: set<nat>, pc: Pc, log: Log)

  // The flow directory: the flow of every packet that has one. It does not change during a run.
  type Directory = d: map<Packet, nat> | forall p | p in d :: d[p] < FLOWS witness map[]

  // ---- The steps ----

  datatype Action =
    | Arrive(pkt: Packet)  // the packet handler is called with a packet that needs I/O
    | StartCallback        // explicit_callback_function is called
    | Look                 // the scan looks at the next buffer
    | GiveUp               // the scan has found no free buffer
    | Choose               // the packet to submit is chosen
    | Issue                // aio_read accepts the request
    | Refuse               // aio_read fails: refresh_aio_buffer clears the buffer
    | SetSubmitted         // state = BUF_SUBMITTED
    | Complete(buf: nat)   // the I/O of the buffer completes: notify_io_rw_done

  ghost predicate Enabled(dir: Directory, s: Sys, a: Action) {
    match a
    case Arrive(p) => s.pc.Idle? && p in dir
    case StartCallback => s.pc.Idle?
    case Look => s.pc.Scan? && s.pc.next < |s.bufs|
    case GiveUp => s.pc.Scan? && s.pc.next == |s.bufs|
    case Choose => s.pc.Got?
    case Issue => s.pc.Submit?
    case Refuse => s.pc.Submit?
    case SetSubmitted => s.pc.Issued?
    case Complete(b) => b in s.inFlight
  }

  // Shapes that every reachable state has and that make the steps well-defined.
  ghost predicate Shaped(dir: Directory, s: Sys) {
    && ValidQueue(s.queue)
    && |s.log.signals| == FLOWS
    && (forall b | b in s.inFlight :: b < |s.bufs|)
    && (s.pc.Scan? ==> s.pc.next <= |s.bufs|)
    && (s.pc.Got? || s.pc.Submit? || s.pc.Issued? ==> s.pc.buf < |s.bufs|)
    && (!s.pc.Idle? && s.pc.job.Handle? ==> s.pc.job.pkt in dir && s.pc.job.flow == dir[s.pc.job.pkt])
    && (forall f, p | 0 <= f < FLOWS && p in Contents(s.queue.rings[f]) :: p in dir && dir[p] == f)
  }

  function Signalled(signals: seq<seq<Signal>>, f: nat, more: seq<Signal>): seq<seq<Signal>>
    requires f < |signals|
  {
    signals[f := signals[f] + more]
  }

  // add_flow_pkt_to_pre_io_wait_queue: the packet is accepted or dropped.
  ghost function Enqueue(s: Sys, f: nat, p: Packet): Sys
    requires ValidQueue(s.queue) && |s.log.signals| == FLOWS && f < FLOWS
  {
    var a := Added(s.queue.rings[f], p);
    var log := s.log.(signals := Signalled(s.log.signals, f, a.signals));
    s.(queue := QueueAdd(s.queue, f, p),
       log := if a.code == 0 then log.(accepted := log.accepted + [p]) else log.(dropped := log.dropped + [p]))
  }

  // get_next_pkt_for_flow_entry_from_pre_io_wait_queue
  ghost function Dequeue(s: Sys, f: nat): Sys
    requires ValidQueue(s.queue) && |s.log.signals| == FLOWS && f < FLOWS
  {
    var n := Removed(s.queue.rings[f]);
    s.(queue := QueueRemove(s.queue, f), log := s.log.(signals := Signalled(s.log.signals, f, n.signals)))
  }

  ghost function Hold(s: Sys, job: Job, b: nat, p: Packet): Sys
    requires b < |s.bufs|
  {
    s.(bufs := s.bufs[b := s.bufs[b].(pkt := Some(p))], pc := Submit(job, b))
  }

  // packet_process_io with a buffer: the packet itself if nothing of its flow waits, otherwise the
  // head of the ring, and the packet takes the place at the end.
  ghost function ChooseForPacket(dir: Directory, s: Sys): Sys
    requires Shaped(dir, s) && s.pc.Got? && s.pc.job.Handle?
  {
    var job, b := s.pc.job, s.pc.buf;
    if s.queue.rings[job.flow].writeHead == s.queue.rings[job.flow].readHead then
      Hold(s.(log := s.log.(accepted := s.log.accepted + [job.pkt])), job, b, job.pkt)
    else
      var head := Removed(s.queue.rings[job.flow]).pkt;
      QueueRemoveKeepsValid(s.queue, job.flow);
      var s' := Enqueue(Dequeue(s, job.flow), job.flow, job.pkt);
      if head.Some? then Hold(s', job, b, head.value) else s'.(pc := Idle)
  }

  // explicit_callback_function with a buffer: the head of the first flow that waits; if there is
  // none the function returns and the buffer stays IN_USE.
  ghost function ChooseForCallback(dir: Directory, s: Sys): Sys
    requires Shaped(dir, s) && s.pc.Got? && s.pc.job.Callback?
  {
    var f := FirstWaiting(s.queue.rings, 0);
    if s.queue.waitListCount == 0 || f == FLOWS then s.(pc := Idle)
    else
      var head := Removed(s.queue.rings[f]).pkt;
      if head.Some? then Hold(Dequeue(s, f), Callback, s.pc.buf, head.value) else s.(pc := Idle)
  }

  // Where the NF thread goes on after read_aio_buffer.
  function After(job: Job): Pc { if job.Callback? then Scan(Callback, 0, {}) else Idle }

  function Lost(log: Log, p: Packet): Log { log.(submitted := log.submitted + [p], lost := log.lost + [p]) }

  ghost function Step(dir: Directory, s: Sys, a: Action): Sys
    requires Shaped(dir, s) && Enabled(dir, s, a)
  {
    match a
    case Arrive(p) =>
      s.(pc := Scan(Handle(p, dir[p]), 0, {}), log := s.log.(arrived := s.log.arrived + [p]))
    case StartCallback =>
      s.(pc := Scan(Callback, 0, {}))
    case Look =>
      var i := s.pc.next;
      if s.bufs[i].state == FREE then
        s.(bufs := s.bufs[i := s.bufs[i].(state := IN_USE)], pc := Got(s.pc.job, i))
      else s.(pc := s.pc.(next := i + 1))
    case GiveUp =>
      if s.pc.job.Handle? then Enqueue(s, s.pc.job.flow, s.pc.job.pkt).(pc := Idle) else s.(pc := Idle)
    case Choose =>
      if s.pc.job.Handle? then ChooseForPacket(dir, s) else ChooseForCallback(dir, s)
    case Issue =>
      var b := s.pc.buf;
      s.(inFlight := s.inFlight + {b}, pc := Issued(s.pc.job, b),
         log := if s.bufs[b].pkt.Some? then s.log.(submitted := s.log.submitted + [s.bufs[b].pkt.value]) else s.log)
    case Refuse =>
      var b := s.pc.buf;
      s.(bufs := s.bufs[b := Buf(FREE, None)], pc := After(s.pc.job),
         log := if s.bufs[b].pkt.Some? then Lost(s.log, s.bufs[b].pkt.value) else s.log)
    case SetSubmitted =>
      var b := s.pc.buf;
      s.(bufs := s.bufs[b := s.bufs[b].(state := SUBMITTED)], pc := After(s.pc.job))
    case Complete(b) =>
      s.(bufs := s.bufs[b := Buf(FREE, None)], inFlight := s.inFlight - {b},
         pc := if s.pc.Scan? then s.pc.(freed := s.pc.freed + {b}) else s.pc,
         log := if s.bufs[b].pkt.Some? then s.log.(returned := s.log.returned + [s.bufs[b].pkt.value]) else s.log)
  }

  // ---- Where packets are ----

  ghost function RingPackets(rings: seq<Ring>): multiset<Packet>
    requires forall f | 0 <= f < |rings| :: ValidRing(rings[f])
  {
    if |rings| == 0 then multiset{}
    else RingPackets(rings[..|rings| - 1]) + multiset(Contents(rings[|rings| - 1]))
  }

  ghost function PacketIn(b: Buf): multiset<Packet> {
    if b.pkt.Some? then multiset{b.pkt.value} else multiset{}
  }

  ghost function BufPackets(bufs: seq<Buf>): multiset<Packet> {
    if |bufs| == 0 then multiset{} else BufPackets(bufs[..|bufs| - 1]) + PacketIn(bufs[|bufs| - 1])
  }

  lemma Shuffle(a: multiset<Packet>, b: multiset<Packet>, c: multiset<Packet>, d: multiset<Packet>, e: multiset<Packet>)
    requires a + b == c + d
    ensures (a + e) + b == (c + e) + d
  {
    assert (a + e) + b == (a + b) + e;
    assert (c + e) + d == (c + d) + e;
  }

  lemma {:induction false} RingPacketsUpdate(rings: seq<Ring>, f: nat, r: Ring)
    requires f < |rings| && ValidRing(r)
    requires forall g | 0 <= g < |rings| :: ValidRing(rings[g])
    ensures RingPackets(rings[f := r]) + multiset(Contents(rings[f])) == RingPackets(rings) + multiset(Contents(r))
  {
    hide ValidRing, Contents;
    var last := |rings| - 1;
    if f < last {
      RingPacketsUpdate(rings[..last], f, r);
      assert rings[f := r][..last] == rings[..last][f := r] && rings[f := r][last] == rings[last];
      assert rings[..last][f] == rings[f];
      assert RingPackets(rings[f := r]) == RingPackets(rings[..last][f := r]) + multiset(Contents(rings[last]));
      Shuffle(RingPackets(rings[..last][f := r]), multiset(Contents(rings[f])),
              RingPackets(rings[..last]), multiset(Contents(r)), multiset(Contents(rings[last])));
    } else {
      assert rings[f := r][..last] == rings[..last];
      assert RingPackets(rings[f := r]) == RingPackets(rings[..last]) + multiset(Contents(r));
    }
  }

  lemma {:induction false} BufPacketsUpdate(bufs: seq<Buf>, b: nat, x: Buf)
    requires b < |bufs|
    ensures BufPackets(bufs[b := x]) + PacketIn(bufs[b]) == BufPackets(bufs) + PacketIn(x)
  {
    hide PacketIn;
    var last := |bufs| - 1;
    if b < last {
      BufPacketsUpdate(bufs[..last], b, x);
      assert bufs[b := x][..last] == bufs[..last][b := x] && bufs[b := x][last] == bufs[last];
      assert bufs[..last][b] == bufs[b];
      assert BufPackets(bufs[b := x]) == BufPackets(bufs[..last][b := x]) + PacketIn(bufs[last]);
      Shuffle(BufPackets(bufs[..last][b := x]), PacketIn(bufs[b]),
              BufPackets(bufs[..last]), PacketIn(x), PacketIn(bufs[last]));
    } else {
      assert bufs[b := x][..last] == bufs[..last];
      assert BufPackets(bufs[b := x]) == BufPackets(bufs[..last]) + PacketIn(x);
    }
  }

  // The packets of one flow, in order.
  ghost function OfFlow(dir: Directory, s: seq<Packet>, f: nat): seq<Packet> {
    if |s| == 0 then []
    else
      var last := s[|s| - 1];
      OfFlow(dir, s[..|s| - 1], f) + (if last in dir && dir[last] == f then [last] else [])
  }

  lemma OfFlowAppend(dir: Directory, s: seq<Packet>, p: Packet, f: nat)
    ensures OfFlow(dir, s + [p], f) == OfFlow(dir, s, f) + (if p in dir && dir[p] == f then [p] else [])
  {
    assert (s + [p])[..|s|] == s;
  }

  // The packet that has left its ring, or was taken directly, and is about to be submitted.
  ghost function InHand(dir: Directory, s: Sys, f: nat): seq<Packet> {
    if s.pc.Submit? && s.pc.buf < |s.bufs| && s.bufs[s.pc.buf].pkt.Some? then
      OfFlow(dir, [s.bufs[s.pc.buf].pkt.value], f)
    else []
  }

  // The packet that the handler has been called with and that is neither accepted nor dropped yet.
  ghost function Undecided(s: Sys): seq<Packet> {
    if (s.pc.Scan? || s.pc.Got?) && s.pc.job.Handle? then [s.pc.job.pkt] else []
  }

  // `all` is `one` and `other` with their elements in some order that keeps the order of each.
  ghost predicate Interleaves(all: seq<Packet>, one: seq<Packet>, other: seq<Packet>) {
    if all == [] then one == [] && other == []
    else
      var n, last := |all| - 1, all[|all| - 1];
      (one != [] && one[|one| - 1] == last && Interleaves(all[..n], one[..|one| - 1], other)) ||
      (other != [] && other[|other| - 1] == last && Interleaves(all[..n], one, other[..|other| - 1]))
  }

  // What came is what was accepted and what was dropped, each in order of arrival, and then `open`.
  ghost predicate Decides(arrived: seq<Packet>, accepted: seq<Packet>, dropped: seq<Packet>, open: seq<Packet>) {
    var n := |arrived| - |open|;
    n >= 0 && arrived[n..] == open && Interleaves(arrived[..n], accepted, dropped)
  }

  lemma NextArrives(arrived: seq<Packet>, accepted: seq<Packet>, dropped: seq<Packet>, p: Packet)
    requires Decides(arrived, accepted, dropped, [])
    ensures Decides(arrived + [p], accepted, dropped, [p])
  {
    hide Interleaves;
    assert (arrived + [p])[..|arrived|] == arrived == arrived[..|arrived|];
  }

  // The open packet becomes a dropped or an accepted one.
  lemma NextDecided(arrived: seq<Packet>, accepted: seq<Packet>, dropped: seq<Packet>, p: Packet, drop: bool)
    requires Decides(arrived, accepted, dropped, [p])
    ensures Decides(arrived, accepted + (if drop then [] else [p]), dropped + (if drop then [p] else []), [])
  {
    var n := |arrived| - 1;
    assert arrived[n] == arrived[n..][0] == p;
    assert arrived[..|arrived|] == arrived;
    if drop {
      assert (dropped + [p])[..|dropped|] == dropped && accepted + [] == accepted;
    } else {
      assert (accepted + [p])[..|accepted|] == accepted && dropped + [] == dropped;
    }
  }

  lemma {:induction false} InterleavedPackets(all: seq<Packet>, one: seq<Packet>, other: seq<Packet>)
    requires Interleaves(all, one, other)
    ensures multiset(all) == multiset(one) + multiset(other)
    decreases |all|
  {
    if all != [] {
      var n := |all| - 1;
      assert all == all[..n] + [all[n]];
      if one != [] && one[|one| - 1] == all[n] && Interleaves(all[..n], one[..|one| - 1], other) {
        InterleavedPackets(all[..n], one[..|one| - 1], other);
        assert one == one[..|one| - 1] + [all[n]];
      } else {
        InterleavedPackets(all[..n], one, other[..|other| - 1]);
        assert other == other[..|other| - 1] + [all[n]];
      }
    }
  }

  // The same for the packets of one flow.
  lemma {:induction false} InterleavedOfFlow(dir: Directory, all: seq<Packet>, one: seq<Packet>, other: seq<Packet>,
                                             f: nat)
    requires Interleaves(all, one, other)
    ensures Interleaves(OfFlow(dir, all, f), OfFlow(dir, one, f), OfFlow(dir, other, f))
    decreases |all|
  {
    if all != [] {
      var n, p := |all| - 1, all[|all| - 1];
      var mine := p in dir && dir[p] == f;
      OfFlowLast(dir, all, f);
      if one != [] && one[|one| - 1] == p && Interleaves(all[..n], one[..|one| - 1], other) {
        InterleavedOfFlow(dir, all[..n], one[..|one| - 1], other, f);
        OfFlowLast(dir, one, f);
        if mine {
          NextInterleaved(OfFlow(dir, all[..n], f), OfFlow(dir, one[..|one| - 1], f), OfFlow(dir, other, f), p, false);
        }
      } else {
        InterleavedOfFlow(dir, all[..n], one, other[..|other| - 1], f);
        OfFlowLast(dir, other, f);
        if mine {
          NextInterleaved(OfFlow(dir, all[..n], f), OfFlow(dir, one, f), OfFlow(dir, other[..|other| - 1], f), p, true);
        }
      }
    }
  }

  lemma OfFlowLast(dir: Directory, s: seq<Packet>, f: nat)
    requires s != []
    ensures var last, before := s[|s| - 1], OfFlow(dir, s[..|s| - 1], f);
            OfFlow(dir, s, f) == if last in dir && dir[last] == f then before + [last] else before
  {
    assert OfFlow(dir, s[..|s| - 1], f) + [] == OfFlow(dir, s[..|s| - 1], f);
  }

  lemma NextInterleaved(all: seq<Packet>, one: seq<Packet>, other: seq<Packet>, p: Packet, second: bool)
    requires Interleaves(all, one, other)
    ensures if second then Interleaves(all + [p], one, other + [p]) else Interleaves(all + [p], one + [p], other)
  {
    assert (all + [p])[..|all|] == all && (one + [p])[..|one|] == one && (other + [p])[..|other|] == other;
  }

  lemma {:induction false} NothingInterleaved(all: seq<Packet>, one: seq<Packet>)
    requires Interleaves(all, one, [])
    ensures all == one
    decreases |all|
  {
    if all != [] {
      NothingInterleaved(all[..|all| - 1], one[..|one| - 1]);
    }
  }

  // ---- The invariants ----

  // A buffer holds a packet from the choice until the completion; a free buffer holds none. The
  // buffers that the scan has passed were busy, unless a completion has freed them since.
  ghost predicate BufsOk(s: Sys)
    requires s.pc.Scan? ==> s.pc.next <= |s.bufs|
    requires s.pc.Got? || s.pc.Submit? || s.pc.Issued? ==> s.pc.buf < |s.bufs|
  {
    && (forall b | 0 <= b < |s.bufs| ::
          s.bufs[b].pkt.Some? <==> b in s.inFlight || (s.pc.Submit? && s.pc.buf == b))
    && (forall b | 0 <= b < |s.bufs| :: s.bufs[b].state == FREE ==> s.bufs[b].pkt.None?)
    && (s.pc.Got? || s.pc.Submit? ==> s.bufs[s.pc.buf].state != FREE && s.pc.buf !in s.inFlight)
    && (s.pc.Scan? ==> forall b | 0 <= b < s.pc.next :: s.bufs[b].state != FREE || b in s.pc.freed)
  }

  // Every accepted packet is in exactly one place: a slot of a ring, a buffer, returned, or lost.
  ghost predicate Conserved(s: Sys)
    requires ValidQueue(s.queue)
  {
    multiset(s.log.accepted) ==
    RingPackets(s.queue.rings) + BufPackets(s.bufs) + multiset(s.log.returned) + multiset(s.log.lost)
  }

  // Nothing that came is forgotten or overtaken.
  ghost predicate Accounted(s: Sys) {
    Decides(s.log.arrived, s.log.accepted, s.log.dropped, Undecided(s))
  }

  // Per flow, the accepted packets are the submitted ones, then the one in hand, then the ring.
  ghost predicate InOrder(dir: Directory, s: Sys, f: nat)
    requires ValidQueue(s.queue) && f < FLOWS
  {
    OfFlow(dir, s.log.accepted, f) ==
    OfFlow(dir, s.log.submitted, f) + InHand(dir, s, f) + Contents(s.queue.rings[f])
  }

  // Marks and clears alternate, starting with a mark, and the status tells which came last.
  ghost predicate Alternating(signals: seq<Signal>, status: int) {
    && (forall i | 0 <= i < |signals| :: signals[i] == if i % 2 == 0 then Mark else Clear)
    && (status == OVER <==> |signals| % 2 == 1)
  }

  ghost predicate Inv(dir: Directory, s: Sys) {
    && Shaped(dir, s)
    && BufsOk(s)
    && Conserved(s)
    && Accounted(s)
    && (forall f | 0 <= f < FLOWS :: InOrder(dir, s, f))
    && (forall f | 0 <= f < FLOWS :: Alternating(s.log.signals[f], s.queue.rings[f].status))
  }
}
