/**
 The invariants of AioSystem hold in every reachable state, for every interleaving of the NF thread
 with the I/O completions.
 */
module AioInvariant {
  import opened Options
  import opened WaitRing
  import opened AioSystem

  // ---- What the queue operations do to the accounts ----

  // The rings and the signals of a state, apart from where its thread stands.
  ghost predicate QueueOk(dir: Directory, s: Sys) {
    && ValidQueue(s.queue)
    && |s.log.signals| == FLOWS
    && (forall f, p | 0 <= f < FLOWS && p in Contents(s.queue.rings[f]) :: p in dir && dir[p] == f)
    && (forall f | 0 <= f < FLOWS :: Alternating(s.log.signals[f], s.queue.rings[f].status))
  }

  lemma AlternatingMore(signals: seq<Signal>, status: int, more: seq<Signal>, status': int)
    requires Alternating(signals, status)
    requires more == [] || (status == NORMAL && more == [Mark]) || (status == OVER && more == [Clear])
    requires status' == OVER <==> (status == OVER && more == []) || more == [Mark]
    ensures Alternating(signals + more, status')
  {
  }

  lemma StatusOf(r: Ring)
    requires ValidRing(r)
    ensures r.status == NORMAL || r.status == OVER
  {
  }

  // Replacing one ring keeps the queue in order if the new ring holds packets of its flow and its
  // status fits the signals.
  lemma ReplaceRing(dir: Directory, s: Sys, s': Sys, f: nat)
    requires QueueOk(dir, s) && f < FLOWS && ValidQueue(s'.queue)
    requires s'.queue.rings == s.queue.rings[f := s'.queue.rings[f]]
    requires |s'.log.signals| == FLOWS && s'.log.signals == s.log.signals[f := s'.log.signals[f]]
    requires forall p | p in Contents(s'.queue.rings[f]) :: p in dir && dir[p] == f
    requires Alternating(s'.log.signals[f], s'.queue.rings[f].status)
    ensures QueueOk(dir, s')
  {
    hide ValidRing, Contents, Alternating;
  }

  ghost predicate Full(s: Sys, f: nat)
    requires |s.queue.rings| == FLOWS && f < FLOWS
  {
    s.queue.rings[f].count == 2047
  }

  // add_flow_pkt_to_pre_io_wait_queue drops the packet if and only if 2047 packets of its flow wait.
  lemma EnqueueEffect(dir: Directory, s: Sys, f: nat, p: Packet)
    requires QueueOk(dir, s) && f < FLOWS && p in dir && dir[p] == f
    ensures QueueOk(dir, Enqueue(s, f, p))
    ensures var s' := Enqueue(s, f, p);
            && s' == s.(queue := s'.queue, log := s'.log)
            && s'.log == s.log.(accepted := s'.log.accepted, dropped := s'.log.dropped, signals := s'.log.signals)
            && s'.log.accepted == s.log.accepted + (if Full(s, f) then [] else [p])
            && s'.log.dropped == s.log.dropped + (if Full(s, f) then [p] else [])
            && s'.queue.rings == s.queue.rings[f := s'.queue.rings[f]]
            && Contents(s'.queue.rings[f]) == Contents(s.queue.rings[f]) + (if Full(s, f) then [] else [p])
  {
    hide ValidRing, Contents, Added, Alternating;
    var r := s.queue.rings[f];
    var a := Added(r, p);
    AddedIs(r, p);
    StatusOf(r);
    StatusOf(a.ring);
    QueueAddKeepsValid(s.queue, f, p);
    AlternatingMore(s.log.signals[f], r.status, a.signals, a.ring.status);
    ReplaceRing(dir, s, Enqueue(s, f, p), f);
  }

  lemma RingsOfOk(dir: Directory, s: Sys)
    requires QueueOk(dir, s)
    ensures ValidQueue(s.queue) && |s.log.signals| == FLOWS
    ensures |s.queue.rings| == FLOWS && forall f | 0 <= f < FLOWS :: ValidRing(s.queue.rings[f])
  {
    hide ValidRing;
  }

  lemma PacketsGrow(rings: seq<Ring>, rings': seq<Ring>, f: nat, more: seq<Packet>)
    requires f < |rings| == |rings'| && rings' == rings[f := rings'[f]]
    requires forall g | 0 <= g < |rings| :: ValidRing(rings[g]) && ValidRing(rings'[g])
    requires Contents(rings'[f]) == Contents(rings[f]) + more
    ensures RingPackets(rings') == RingPackets(rings) + multiset(more)
  {
    hide ValidRing, Contents, RingPackets;
    RingPacketsUpdate(rings, f, rings'[f]);
    CancelCommon(RingPackets(rings'), multiset(Contents(rings[f])), RingPackets(rings), multiset(more));
  }

  lemma CancelCommon(a: multiset<Packet>, c: multiset<Packet>, b: multiset<Packet>, d: multiset<Packet>)
    requires a + c == b + (c + d)
    ensures a == b + d
  {
    forall p
      ensures a[p] == (b + d)[p]
    {
      assert (a + c)[p] == (b + (c + d))[p];
    }
    assert a == b + d;
  }

  lemma PacketsShrink(rings: seq<Ring>, rings': seq<Ring>, f: nat)
    requires f < |rings| == |rings'| && rings' == rings[f := rings'[f]]
    requires forall g | 0 <= g < |rings| :: ValidRing(rings[g]) && ValidRing(rings'[g])
    requires Contents(rings[f]) != [] && Contents(rings'[f]) == Contents(rings[f])[1..]
    ensures RingPackets(rings) == RingPackets(rings') + multiset{Contents(rings[f])[0]}
  {
    hide ValidRing, Contents, RingPackets;
    RingPacketsUpdate(rings, f, rings'[f]);
    var c := Contents(rings[f]);
    assert c == [c[0]] + c[1..];
    assert multiset(c) == multiset(c[1..]) + multiset{c[0]};
    CancelCommon(RingPackets(rings), multiset(c[1..]), RingPackets(rings'), multiset{c[0]});
  }

  lemma EnqueuePackets(dir: Directory, s: Sys, f: nat, p: Packet)
    requires QueueOk(dir, s) && f < FLOWS && p in dir && dir[p] == f
    ensures ValidQueue(Enqueue(s, f, p).queue)
    ensures RingPackets(Enqueue(s, f, p).queue.rings) ==
            RingPackets(s.queue.rings) + (if Full(s, f) then multiset{} else multiset{p})
  {
    hide *;
    RingsOfOk(dir, s);
    EnqueueEffect(dir, s, f, p);
    RingsOfOk(dir, Enqueue(s, f, p));
    PacketsGrow(s.queue.rings, Enqueue(s, f, p).queue.rings, f, if Full(s, f) then [] else [p]);
  }

  lemma DequeueEffect(dir: Directory, s: Sys, f: nat)
    requires QueueOk(dir, s) && f < FLOWS && s.queue.rings[f].count > 0
    ensures QueueOk(dir, Dequeue(s, f))
    ensures var s' := Dequeue(s, f);
            && s' == s.(queue := s'.queue, log := s.log.(signals := s'.log.signals))
            && Removed(s.queue.rings[f]).pkt == Some(Contents(s.queue.rings[f])[0])
            && s'.queue.rings == s.queue.rings[f := s'.queue.rings[f]]
            && Contents(s'.queue.rings[f]) == Contents(s.queue.rings[f])[1..]
  {
    hide ValidRing, Contents, Removed, Alternating;
    var r := s.queue.rings[f];
    var n := Removed(r);
    RemovedIs(r);
    StatusOf(r);
    StatusOf(n.ring);
    QueueRemoveKeepsValid(s.queue, f);
    AlternatingMore(s.log.signals[f], r.status, n.signals, n.ring.status);
    ReplaceRing(dir, s, Dequeue(s, f), f);
  }

  lemma DequeuePackets(dir: Directory, s: Sys, f: nat)
    requires QueueOk(dir, s) && f < FLOWS && s.queue.rings[f].count > 0
    ensures ValidQueue(Dequeue(s, f).queue)
    ensures RingPackets(s.queue.rings) ==
            RingPackets(Dequeue(s, f).queue.rings) + multiset{Contents(s.queue.rings[f])[0]}
  {
    hide *;
    RingsOfOk(dir, s);
    DequeueEffect(dir, s, f);
    RingsOfOk(dir, Dequeue(s, f));
    PacketsShrink(s.queue.rings, Dequeue(s, f).queue.rings, f);
  }

  // ---- Every step keeps the invariants ----

  lemma QueueOfInv(dir: Directory, s: Sys)
    requires Inv(dir, s)
    ensures QueueOk(dir, s)
  {
    hide ValidRing, Contents, Alternating, BufsOk, Conserved, Accounted, InOrder;
  }

  // The parts of Inv, put together again.
  lemma Assemble(dir: Directory, s: Sys)
    requires Shaped(dir, s) && QueueOk(dir, s) && BufsOk(s) && Conserved(s) && Accounted(s)
    requires forall f | 0 <= f < FLOWS :: InOrder(dir, s, f)
    ensures Inv(dir, s)
  {
    hide ValidQueue, BufsOk, Conserved, Accounted, InOrder, Alternating;
  }

  // Steps that touch neither the rings nor the packets in buffers.
  lemma QuietFrame(dir: Directory, s: Sys, s': Sys)
    requires Inv(dir, s) && !s.pc.Submit? && !s'.pc.Submit?
    requires s'.queue == s.queue && s'.log == s.log.(arrived := s'.log.arrived)
    requires BufPackets(s'.bufs) == BufPackets(s.bufs)
    ensures QueueOk(dir, s') && Conserved(s')
    ensures forall f | 0 <= f < FLOWS :: InOrder(dir, s', f)
  {
    hide ValidQueue, Contents, Alternating, OfFlow, RingPackets, BufPackets, BufsOk, Accounted;
    QueueOfInv(dir, s);
    forall f | 0 <= f < FLOWS
      ensures InOrder(dir, s', f)
    {
      assert InOrder(dir, s, f);
    }
  }

  lemma ArriveKeepsInv(dir: Directory, s: Sys, p: Packet)
    requires Inv(dir, s) && Enabled(dir, s, Arrive(p))
    ensures Inv(dir, Step(dir, s, Arrive(p)))
  {
    hide QueueOk, Conserved, InOrder, Alternating, ValidQueue, Decides;
    var s' := Step(dir, s, Arrive(p));
    NextArrives(s.log.arrived, s.log.accepted, s.log.dropped, p);
    QuietFrame(dir, s, s');
    Assemble(dir, s');
  }

  lemma StartCallbackKeepsInv(dir: Directory, s: Sys)
    requires Inv(dir, s) && Enabled(dir, s, StartCallback)
    ensures Inv(dir, Step(dir, s, StartCallback))
  {
    hide QueueOk, Conserved, InOrder, Alternating, ValidQueue, Decides;
    QuietFrame(dir, s, Step(dir, s, StartCallback));
    Assemble(dir, Step(dir, s, StartCallback));
  }

  lemma LookBusyKeepsInv(dir: Directory, s: Sys)
    requires Inv(dir, s) && Enabled(dir, s, Look) && s.bufs[s.pc.next].state != FREE
    ensures Inv(dir, Step(dir, s, Look))
  {
    hide QueueOk, Conserved, InOrder, Alternating, ValidQueue, BufPackets, Decides;
    var s' := Step(dir, s, Look);
    QuietFrame(dir, s, s');
    Assemble(dir, s');
  }

  lemma LookFreeBufs(dir: Directory, s: Sys)
    requires Inv(dir, s) && Enabled(dir, s, Look) && s.bufs[s.pc.next].state == FREE
    ensures Shaped(dir, Step(dir, s, Look)) && BufsOk(Step(dir, s, Look))
  {
    hide Conserved, InOrder, Alternating, ValidQueue, Decides;
  }

  lemma LookFreeKeepsInv(dir: Directory, s: Sys)
    requires Inv(dir, s) && Enabled(dir, s, Look) && s.bufs[s.pc.next].state == FREE
    ensures Inv(dir, Step(dir, s, Look))
  {
    LookFreeBufs(dir, s);
    hide Contents, OfFlow, RingPackets, BufPackets, ValidQueue;
    hide QueueOk, Conserved, InOrder, Alternating, BufsOk, Decides;
    var s' := Step(dir, s, Look);
    StateChanges(s, s.pc.next, IN_USE);
    QuietFrame(dir, s, s');
    Assemble(dir, s');
  }

  lemma SetSubmittedBufs(dir: Directory, s: Sys)
    requires Inv(dir, s) && Enabled(dir, s, SetSubmitted)
    ensures Shaped(dir, Step(dir, s, SetSubmitted)) && BufsOk(Step(dir, s, SetSubmitted))
  {
    hide Conserved, InOrder, Alternating, ValidQueue, Decides;
  }

  // Only the state of one buffer changes, and not its packet.
  lemma StateChanges(s: Sys, b: nat, state: BufState)
    requires b < |s.bufs|
    ensures BufPackets(s.bufs[b := s.bufs[b].(state := state)]) == BufPackets(s.bufs)
  {
    BufPacketsUpdate(s.bufs, b, s.bufs[b].(state := state));
    CancelCommon(BufPackets(s.bufs[b := s.bufs[b].(state := state)]), PacketIn(s.bufs[b]),
                 BufPackets(s.bufs), multiset{});
  }

  lemma SetSubmittedFrame(dir: Directory, s: Sys)
    requires Shaped(dir, s) && Enabled(dir, s, SetSubmitted)
    ensures var s' := Step(dir, s, SetSubmitted);
            && s'.queue == s.queue && s'.log == s.log && !s'.pc.Submit?
            && BufPackets(s'.bufs) == BufPackets(s.bufs) && Undecided(s') == [] && Undecided(s) == []
  {
    hide ValidQueue, Contents, BufPackets;
    StateChanges(s, s.pc.buf, SUBMITTED);
  }

  lemma SetSubmittedKeepsInv(dir: Directory, s: Sys)
    requires Inv(dir, s) && Enabled(dir, s, SetSubmitted)
    ensures Inv(dir, Step(dir, s, SetSubmitted))
  {
    hide Shaped, QueueOk, Conserved, InOrder, Alternating, ValidQueue, BufPackets, BufsOk, Decides, Step;
    ShapedOfInv(dir, s);
    SetSubmittedBufs(dir, s);
    SetSubmittedFrame(dir, s);
    QuietFrame(dir, s, Step(dir, s, SetSubmitted));
    Assemble(dir, Step(dir, s, SetSubmitted));
  }

  // ---- GiveUp: no buffer was free ----

  lemma EnqueueContents(dir: Directory, s: Sys, f: nat, p: Packet, g: nat)
    requires QueueOk(dir, s) && f < FLOWS && g < FLOWS && p in dir && dir[p] == f
    ensures ValidQueue(Enqueue(s, f, p).queue)
    ensures Contents(Enqueue(s, f, p).queue.rings[g]) ==
            Contents(s.queue.rings[g]) + (if g == f && !Full(s, f) then [p] else [])
  {
    hide *;
    RingsOfOk(dir, s);
    EnqueueEffect(dir, s, f, p);
    RingsOfOk(dir, Enqueue(s, f, p));
  }

  lemma AppendIs(before: seq<Packet>, ring: seq<Packet>, accepted: seq<Packet>, p: Packet)
    ensures accepted + [] == accepted && ring + [] == ring
    ensures before + (ring + [p]) == (before + ring) + [p]
  {
  }

  lemma EnqueueInOrder(dir: Directory, s: Sys, f: nat, p: Packet, g: nat)
    requires QueueOk(dir, s) && f < FLOWS && g < FLOWS && p in dir && dir[p] == f
    requires InOrder(dir, s, g)
    ensures ValidQueue(Enqueue(s, f, p).queue) && InOrder(dir, Enqueue(s, f, p), g)
  {
    RingsOfOk(dir, s);
    hide QueueOk, ValidQueue, ValidRing, Contents, Enqueue, OfFlow, Full;
    EnqueueContents(dir, s, f, p, g);
    EnqueueEffect(dir, s, f, p);
    OfFlowAppend(dir, s.log.accepted, p, g);
    AppendIs(OfFlow(dir, s.log.submitted, g) + InHand(dir, s, g), Contents(s.queue.rings[g]), s.log.accepted, p);
  }

  // Forgetting where the thread stands changes no account unless a packet is in hand.
  lemma StandingChanges(dir: Directory, s: Sys, pc: Pc)
    requires QueueOk(dir, s) && !s.pc.Submit? && !pc.Submit?
    ensures QueueOk(dir, s.(pc := pc))
    ensures Conserved(s) ==> Conserved(s.(pc := pc))
    ensures forall f | 0 <= f < FLOWS :: InOrder(dir, s, f) ==> InOrder(dir, s.(pc := pc), f)
  {
    hide ValidQueue, Alternating, Contents, RingPackets, BufPackets, OfFlow;
  }

  lemma EnqueueConserved(dir: Directory, s: Sys, f: nat, p: Packet)
    requires QueueOk(dir, s) && f < FLOWS && p in dir && dir[p] == f && Conserved(s)
    ensures ValidQueue(Enqueue(s, f, p).queue) && Conserved(Enqueue(s, f, p))
  {
    EnqueuePackets(dir, s, f, p);
    EnqueueEffect(dir, s, f, p);
    hide QueueOk, ValidQueue, Contents, Enqueue, RingPackets, BufPackets;
    assert multiset(s.log.accepted + [p]) == multiset(s.log.accepted) + multiset{p};
  }

  lemma GiveUpKeepsInv(dir: Directory, s: Sys)
    requires Inv(dir, s) && Enabled(dir, s, GiveUp)
    ensures Inv(dir, Step(dir, s, GiveUp))
  {
    if s.pc.job.Callback? {
      GiveUpCallbackKeepsInv(dir, s);
    } else {
      GiveUpPacketKeepsInv(dir, s);
    }
  }

  lemma GiveUpCallbackKeepsInv(dir: Directory, s: Sys)
    requires Inv(dir, s) && Enabled(dir, s, GiveUp) && s.pc.job.Callback?
    ensures Inv(dir, Step(dir, s, GiveUp))
  {
    hide QueueOk, Conserved, InOrder, Alternating, ValidQueue, BufPackets, Decides;
    QuietFrame(dir, s, Step(dir, s, GiveUp));
    Assemble(dir, Step(dir, s, GiveUp));
  }

  lemma GiveUpPacketKeepsInv(dir: Directory, s: Sys)
    requires Inv(dir, s) && Enabled(dir, s, GiveUp) && s.pc.job.Handle?
    ensures Inv(dir, Step(dir, s, GiveUp))
  {
    QueueOfInv(dir, s);
    var f, p := s.pc.job.flow, s.pc.job.pkt;
    var e := Enqueue(s, f, p);
    EnqueueEffect(dir, s, f, p);
    EnqueueConserved(dir, s, f, p);
    forall g | 0 <= g < FLOWS
      ensures InOrder(dir, e, g)
    {
      EnqueueInOrder(dir, s, f, p, g);
    }
    StandingChanges(dir, e, Idle);
    GiveUpRest(dir, s);
    Assemble(dir, Step(dir, s, GiveUp));
  }

  lemma ShapedWhenIdle(dir: Directory, s: Sys, s': Sys)
    requires Shaped(dir, s) && QueueOk(dir, s') && s'.pc.Idle? && s'.bufs == s.bufs && s'.inFlight == s.inFlight
    ensures Shaped(dir, s')
  {
    hide ValidQueue, Contents, Alternating;
  }

  lemma BufsWhenIdle(dir: Directory, s: Sys, s': Sys)
    requires Shaped(dir, s) && BufsOk(s) && s.pc.Scan? && s'.pc.Idle? && s'.bufs == s.bufs && s'.inFlight == s.inFlight
    ensures BufsOk(s')
  {
    hide ValidQueue, Contents;
  }

  lemma AccountedWhenIdle(s: Sys, s': Sys, drop: bool)
    requires Accounted(s) && s.pc.Scan? && s.pc.job.Handle? && s'.pc.Idle? && s'.log.arrived == s.log.arrived
    requires s'.log.accepted == s.log.accepted + (if drop then [] else [s.pc.job.pkt])
    requires s'.log.dropped == s.log.dropped + (if drop then [s.pc.job.pkt] else [])
    ensures Accounted(s')
  {
    NextDecided(s.log.arrived, s.log.accepted, s.log.dropped, s.pc.job.pkt, drop);
    hide Decides;
  }

  lemma GiveUpRest(dir: Directory, s: Sys)
    requires Inv(dir, s) && Enabled(dir, s, GiveUp) && s.pc.job.Handle?
    ensures var s' := Step(dir, s, GiveUp); Shaped(dir, s') && BufsOk(s') && Accounted(s')
  {
    hide ValidQueue, Contents, Alternating, Enqueue, Accounted, BufsOk, InOrder, Conserved, Step, QueueOk, Full;
    QueueOfInv(dir, s);
    RingsOfOk(dir, s);
    GiveUpStep(dir, s);
    var f, p := s.pc.job.flow, s.pc.job.pkt;
    EnqueueEffect(dir, s, f, p);
    hide Inv, Shaped;
    var s' := Step(dir, s, GiveUp);
    StandingChanges(dir, Enqueue(s, f, p), Idle);
    ShapedWhenIdle(dir, s, s');
    BufsWhenIdle(dir, s, s');
    AccountedWhenIdle(s, s', Full(s, f));
  }

  lemma GiveUpStep(dir: Directory, s: Sys)
    requires Shaped(dir, s) && Enabled(dir, s, GiveUp) && s.pc.job.Handle?
    ensures Step(dir, s, GiveUp) == Enqueue(s, s.pc.job.flow, s.pc.job.pkt).(pc := Idle)
  {
    hide Enqueue, ValidQueue, Contents;
  }

  // ---- Choose: a packet is put into the buffer ----

  // A state between the choice of `p` and its storing into the buffer: `p` is accepted but in no
  // place. The packets in `open` have come but are neither accepted nor dropped.
  ghost predicate Outside(dir: Directory, s: Sys, p: Packet, open: seq<Packet>) {
    && QueueOk(dir, s)
    && OutsideSum(s, p)
    && (forall f | 0 <= f < FLOWS :: OutsideOrder(dir, s, p, f))
    && OutsideCount(s, open)
  }

  ghost predicate OutsideSum(s: Sys, p: Packet)
    requires ValidQueue(s.queue)
  {
    multiset(s.log.accepted) ==
    RingPackets(s.queue.rings) + BufPackets(s.bufs) + multiset(s.log.returned) + multiset(s.log.lost) + multiset{p}
  }

  ghost predicate OutsideOrder(dir: Directory, s: Sys, p: Packet, f: nat)
    requires ValidQueue(s.queue) && f < FLOWS
  {
    OfFlow(dir, s.log.accepted, f) ==
    OfFlow(dir, s.log.submitted, f) + OfFlow(dir, [p], f) + Contents(s.queue.rings[f])
  }

  ghost predicate OutsideCount(s: Sys, open: seq<Packet>) {
    Decides(s.log.arrived, s.log.accepted, s.log.dropped, open)
  }

  lemma HoldConserved(dir: Directory, s: Sys, job: Job, b: nat, p: Packet)
    requires b < |s.bufs| && s.bufs[b].pkt.None? && Outside(dir, s, p, [])
    ensures Conserved(Hold(s, job, b, p))
  {
    hide ValidQueue, Contents, Alternating, RingPackets, BufPackets, OfFlow;
    var h := Hold(s, job, b, p);
    BufPacketsUpdate(s.bufs, b, h.bufs[b]);
    assert BufPackets(h.bufs) == BufPackets(s.bufs) + multiset{p};
  }

  lemma HoldInOrder(dir: Directory, s: Sys, job: Job, b: nat, p: Packet)
    requires b < |s.bufs| && Outside(dir, s, p, [])
    ensures QueueOk(dir, Hold(s, job, b, p))
    ensures forall f | 0 <= f < FLOWS :: InOrder(dir, Hold(s, job, b, p), f)
  {
    hide ValidQueue, Contents, Alternating, RingPackets, BufPackets, OfFlow;
    forall f | 0 <= f < FLOWS
      ensures InOrder(dir, Hold(s, job, b, p), f)
    {
      assert OutsideOrder(dir, s, p, f);
    }
  }

  lemma HoldShaped(dir: Directory, s: Sys, s1: Sys, p: Packet)
    requires Shaped(dir, s) && s.pc.Got? && s1.pc == s.pc && s1.bufs == s.bufs && s1.inFlight == s.inFlight
    requires QueueOk(dir, s1)
    ensures Shaped(dir, Hold(s1, s.pc.job, s.pc.buf, p))
  {
    hide ValidQueue, Contents, Alternating;
  }

  lemma HoldAccounted(dir: Directory, s: Sys, job: Job, b: nat, p: Packet)
    requires b < |s.bufs| && Outside(dir, s, p, [])
    ensures Accounted(Hold(s, job, b, p))
  {
    hide QueueOk, ValidQueue, Contents, RingPackets, BufPackets, OfFlow, Decides;
  }

  lemma HoldKeepsInv(dir: Directory, s: Sys, s1: Sys, p: Packet)
    requires Inv(dir, s) && s.pc.Got? && s1.pc == s.pc && s1.bufs == s.bufs && s1.inFlight == s.inFlight
    requires Outside(dir, s1, p, [])
    ensures Inv(dir, Hold(s1, s.pc.job, s.pc.buf, p))
  {
    hide ValidQueue, Contents, Alternating, InOrder, Conserved, Accounted, QueueOk, Hold;
    assert QueueOk(dir, s1);
    assert s.bufs[s.pc.buf].pkt.None?;
    hide BufsOk, Outside;
    HoldConserved(dir, s1, s.pc.job, s.pc.buf, p);
    HoldInOrder(dir, s1, s.pc.job, s.pc.buf, p);
    HoldShaped(dir, s, s1, p);
    HoldAccounted(dir, s1, s.pc.job, s.pc.buf, p);
    HoldBufs(dir, s, s1, p);
    Assemble(dir, Hold(s1, s.pc.job, s.pc.buf, p));
  }

  lemma HoldBufs(dir: Directory, s: Sys, s1: Sys, p: Packet)
    requires Shaped(dir, s) && BufsOk(s) && s.pc.Got? && s1.pc == s.pc && s1.bufs == s.bufs && s1.inFlight == s.inFlight
    ensures BufsOk(Hold(s1, s.pc.job, s.pc.buf, p))
  {
    hide ValidQueue, Contents;
  }

  // Nothing of the flow waits: the packet itself is chosen.

  lemma DirectOutsideOrder(dir: Directory, s: Sys, p: Packet, f: nat, g: nat)
    requires QueueOk(dir, s) && f < FLOWS && g < FLOWS && p in dir && dir[p] == f
    requires !s.pc.Submit? && InOrder(dir, s, g) && Contents(s.queue.rings[f]) == []
    ensures OutsideOrder(dir, s.(log := s.log.(accepted := s.log.accepted + [p])), p, g)
  {
    OfFlowAppend(dir, s.log.accepted, p, g);
    OfFlowSingle(dir, p, g);
    hide QueueOk, ValidQueue, Contents, OfFlow;
  }

  lemma DirectIsOutside(dir: Directory, s: Sys, p: Packet, f: nat)
    requires QueueOk(dir, s) && f < FLOWS && p in dir && dir[p] == f && Contents(s.queue.rings[f]) == []
    requires !s.pc.Submit? && Conserved(s) && OutsideCount(s, [p])
    requires forall g | 0 <= g < FLOWS :: InOrder(dir, s, g)
    ensures Outside(dir, s.(log := s.log.(accepted := s.log.accepted + [p])), p, [])
  {
    RingsOfOk(dir, s);
    hide ValidQueue, Contents, OutsideOrder, OutsideSum, InOrder, Conserved, QueueOk, Decides;
    DirectSum(dir, s, p);
    var s1 := s.(log := s.log.(accepted := s.log.accepted + [p]));
    forall g | 0 <= g < FLOWS
      ensures OutsideOrder(dir, s1, p, g)
    {
      DirectOutsideOrder(dir, s, p, f, g);
    }
    NextDecided(s.log.arrived, s.log.accepted, s.log.dropped, p, false);
    assert s.log.dropped + [] == s.log.dropped;
  }

  lemma DirectSum(dir: Directory, s: Sys, p: Packet)
    requires QueueOk(dir, s) && Conserved(s)
    ensures var s1 := s.(log := s.log.(accepted := s.log.accepted + [p])); QueueOk(dir, s1) && OutsideSum(s1, p)
  {
    hide ValidQueue, Alternating, RingPackets, BufPackets, Contents;
    assert multiset(s.log.accepted + [p]) == multiset(s.log.accepted) + multiset{p};
  }

  lemma OfFlowSingle(dir: Directory, p: Packet, f: nat)
    ensures OfFlow(dir, [p], f) == if p in dir && dir[p] == f then [p] else []
  {
    OfFlowAppend(dir, [], p, f);
    assert [] + [p] == [p];
  }

  lemma DequeueContents(dir: Directory, s: Sys, f: nat, g: nat)
    requires QueueOk(dir, s) && f < FLOWS && g < FLOWS && s.queue.rings[f].count > 0
    ensures ValidQueue(Dequeue(s, f).queue)
    ensures Contents(s.queue.rings[g]) ==
            (if g == f then [Contents(s.queue.rings[f])[0]] else []) + Contents(Dequeue(s, f).queue.rings[g])
    ensures Contents(s.queue.rings[f])[0] in dir && dir[Contents(s.queue.rings[f])[0]] == f
  {
    HeadHasFlow(dir, s, f);
    hide *;
    RingsOfOk(dir, s);
    DequeueEffect(dir, s, f);
    RingsOfOk(dir, Dequeue(s, f));
    if g == f {
      HeadAndRest(Contents(s.queue.rings[f]));
    } else {
      assert Contents(s.queue.rings[g]) == [] + Contents(Dequeue(s, f).queue.rings[g]);
    }
  }

  lemma HeadAndRest(c: seq<Packet>)
    requires c != []
    ensures c == [c[0]] + c[1..]
  {
  }

  lemma HeadHasFlow(dir: Directory, s: Sys, f: nat)
    requires QueueOk(dir, s) && f < FLOWS && s.queue.rings[f].count > 0
    ensures Contents(s.queue.rings[f])[0] in dir && dir[Contents(s.queue.rings[f])[0]] == f
  {
    hide Alternating;
    assert Contents(s.queue.rings[f])[0] in Contents(s.queue.rings[f]);
  }

  lemma DequeueOutsideOrder(dir: Directory, s: Sys, f: nat, g: nat)
    requires QueueOk(dir, s) && f < FLOWS && g < FLOWS && s.queue.rings[f].count > 0
    requires !s.pc.Submit? && InOrder(dir, s, g)
    ensures ValidQueue(Dequeue(s, f).queue)
    ensures OutsideOrder(dir, Dequeue(s, f), Contents(s.queue.rings[f])[0], g)
  {
    RingsOfOk(dir, s);
    CountIsLength(s.queue.rings[f]);
    hide QueueOk, ValidQueue, ValidRing, Contents, OfFlow, Dequeue, Removed, Decides;
    DequeueContents(dir, s, f, g);
    DequeueEffect(dir, s, f);
    OfFlowSingle(dir, Contents(s.queue.rings[f])[0], g);
    HeadMoves(OfFlow(dir, s.log.submitted, g), OfFlow(dir, [Contents(s.queue.rings[f])[0]], g),
              Contents(Dequeue(s, f).queue.rings[g]));
  }

  lemma HeadMoves(submitted: seq<Packet>, head: seq<Packet>, rest: seq<Packet>)
    ensures submitted + [] + (head + rest) == submitted + head + rest
  {
  }

  lemma DequeueOutsideSum(dir: Directory, s: Sys, f: nat)
    requires QueueOk(dir, s) && f < FLOWS && s.queue.rings[f].count > 0 && Conserved(s)
    ensures ValidQueue(Dequeue(s, f).queue)
    ensures OutsideSum(Dequeue(s, f), Contents(s.queue.rings[f])[0])
  {
    DequeuePackets(dir, s, f);
    DequeueEffect(dir, s, f);
    hide QueueOk, ValidQueue, Contents, Dequeue, RingPackets, BufPackets;
  }

  // The head of a ring is taken out.
  lemma DequeueIsOutside(dir: Directory, s: Sys, f: nat, open: seq<Packet>)
    requires QueueOk(dir, s) && f < FLOWS && s.queue.rings[f].count > 0
    requires Conserved(s) && !s.pc.Submit? && forall g | 0 <= g < FLOWS :: InOrder(dir, s, g)
    requires OutsideCount(s, open)
    ensures Outside(dir, Dequeue(s, f), Contents(s.queue.rings[f])[0], open)
  {
    DequeueEffect(dir, s, f);
    DequeueOutsideSum(dir, s, f);
    forall g | 0 <= g < FLOWS
      ensures OutsideOrder(dir, Dequeue(s, f), Contents(s.queue.rings[f])[0], g)
    {
      DequeueOutsideOrder(dir, s, f, g);
    }
    hide QueueOk, ValidQueue, Contents, Dequeue, OutsideSum, OutsideOrder, InOrder, Conserved;
  }

  lemma EnqueueOutsideOrder(dir: Directory, s: Sys, f: nat, p: Packet, head: Packet, g: nat)
    requires QueueOk(dir, s) && f < FLOWS && g < FLOWS && p in dir && dir[p] == f && !Full(s, f)
    requires OutsideOrder(dir, s, head, g)
    ensures ValidQueue(Enqueue(s, f, p).queue)
    ensures OutsideOrder(dir, Enqueue(s, f, p), head, g)
  {
    hide QueueOk, ValidQueue, Contents, OfFlow, Enqueue, Full;
    EnqueueContents(dir, s, f, p, g);
    EnqueueEffect(dir, s, f, p);
    OfFlowAppend(dir, s.log.accepted, p, g);
  }

  lemma EnqueueOutsideSum(dir: Directory, s: Sys, f: nat, p: Packet, head: Packet)
    requires QueueOk(dir, s) && f < FLOWS && p in dir && dir[p] == f && !Full(s, f)
    requires OutsideSum(s, head)
    ensures ValidQueue(Enqueue(s, f, p).queue)
    ensures OutsideSum(Enqueue(s, f, p), head)
  {
    EnqueuePackets(dir, s, f, p);
    EnqueueEffect(dir, s, f, p);
    hide QueueOk, ValidQueue, Contents, Enqueue, RingPackets, BufPackets;
    assert multiset(s.log.accepted + [p]) == multiset(s.log.accepted) + multiset{p};
  }

  // The packet of the handler takes the free place at the end of the ring.
  lemma EnqueueKeepsOutside(dir: Directory, s: Sys, f: nat, p: Packet, head: Packet)
    requires f < FLOWS && p in dir && dir[p] == f
    requires Outside(dir, s, head, [p]) && !Full(s, f)
    ensures Outside(dir, Enqueue(s, f, p), head, [])
  {
    EnqueueEffect(dir, s, f, p);
    EnqueueOutsideSum(dir, s, f, p, head);
    forall g | 0 <= g < FLOWS
      ensures OutsideOrder(dir, Enqueue(s, f, p), head, g)
    {
      EnqueueOutsideOrder(dir, s, f, p, head, g);
    }
    NextDecided(s.log.arrived, s.log.accepted, s.log.dropped, p, false);
    assert s.log.dropped + [] == s.log.dropped;
    hide QueueOk, ValidQueue, Contents, Enqueue, OutsideSum, OutsideOrder, Decides;
  }

  // The empty ring, as is_flow_pkt_in_pre_io_wait_queue and pkt_count tell it.
  lemma EmptyIff(r: Ring)
    requires ValidRing(r)
    ensures r.writeHead == r.readHead <==> Contents(r) == []
    ensures r.count == 0 <==> Contents(r) == []
  {
  }

  lemma ChooseDirectKeepsInv(dir: Directory, s: Sys)
    requires Inv(dir, s) && Enabled(dir, s, Choose) && s.pc.job.Handle?
    requires s.queue.rings[s.pc.job.flow].writeHead == s.queue.rings[s.pc.job.flow].readHead
    ensures Inv(dir, Step(dir, s, Choose))
  {
    QueueOfInv(dir, s);
    RingsOfOk(dir, s);
    var f, p := s.pc.job.flow, s.pc.job.pkt;
    EmptyIff(s.queue.rings[f]);
    assert OutsideCount(s, [p]);
    hide ValidQueue, ValidRing, Contents, Alternating, QueueOk, InOrder, Conserved, Accounted, BufsOk;
    hide Hold, Enqueue, Dequeue;
    DirectIsOutside(dir, s, p, f);
    HoldKeepsInv(dir, s, s.(log := s.log.(accepted := s.log.accepted + [p])), p);
  }

  // Once the head is out there is room for the packet, so the drop that follows a failed add in
  // packet_process_io is never reached.
  lemma RoomAfterDequeue(dir: Directory, s: Sys, f: nat)
    requires QueueOk(dir, s) && f < FLOWS && s.queue.rings[f].count > 0
    ensures QueueOk(dir, Dequeue(s, f)) && !Full(Dequeue(s, f), f)
  {
    DequeueEffect(dir, s, f);
    RingsOfOk(dir, s);
    RingsOfOk(dir, Dequeue(s, f));
    hide QueueOk, ValidQueue, Dequeue, Removed;
    CountIsDistanceModulo(s.queue.rings[f]);
    CountIsLength(s.queue.rings[f]);
    CountIsLength(Dequeue(s, f).queue.rings[f]);
    hide Contents, ValidRing;
  }

  lemma CountIsLength(r: Ring)
    requires ValidRing(r)
    ensures |Contents(r)| == r.count
  {
  }

  lemma ChooseSwapKeepsInv(dir: Directory, s: Sys)
    requires Inv(dir, s) && Enabled(dir, s, Choose) && s.pc.job.Handle?
    requires s.queue.rings[s.pc.job.flow].writeHead != s.queue.rings[s.pc.job.flow].readHead
    ensures Inv(dir, Step(dir, s, Choose))
  {
    QueueOfInv(dir, s);
    RingsOfOk(dir, s);
    var f, p := s.pc.job.flow, s.pc.job.pkt;
    EmptyIff(s.queue.rings[f]);
    CountIsLength(s.queue.rings[f]);
    assert OutsideCount(s, [p]);
    hide ValidQueue, ValidRing, Contents, Alternating, QueueOk, InOrder, Conserved, Accounted, BufsOk;
    hide Hold, Enqueue, Dequeue, Outside;
    DequeueEffect(dir, s, f);
    DequeueIsOutside(dir, s, f, [p]);
    RoomAfterDequeue(dir, s, f);
    EnqueueKeepsOutside(dir, Dequeue(s, f), f, p, Contents(s.queue.rings[f])[0]);
    EnqueueEffect(dir, Dequeue(s, f), f, p);
    HoldKeepsInv(dir, s, Enqueue(Dequeue(s, f), f, p), Contents(s.queue.rings[f])[0]);
  }

  lemma ChooseCallbackKeepsInv(dir: Directory, s: Sys)
    requires Inv(dir, s) && Enabled(dir, s, Choose) && s.pc.job.Callback? && s.queue.waitListCount != 0
    ensures Inv(dir, Step(dir, s, Choose))
  {
    QueueOfInv(dir, s);
    RingsOfOk(dir, s);
    WaitingIffCounted(s.queue);
    var f := FirstWaiting(s.queue.rings, 0);
    CountIsDistanceModulo(s.queue.rings[f]);
    CountIsLength(s.queue.rings[f]);
    assert OutsideCount(s, []);
    hide ValidQueue, ValidRing, Contents, Alternating, QueueOk, InOrder, Conserved, Accounted, BufsOk;
    hide Hold, Dequeue, Outside, FirstWaiting;
    DequeueEffect(dir, s, f);
    DequeueIsOutside(dir, s, f, []);
    HoldKeepsInv(dir, s, Dequeue(s, f), Contents(s.queue.rings[f])[0]);
  }

  lemma ChooseNothingKeepsInv(dir: Directory, s: Sys)
    requires Inv(dir, s) && Enabled(dir, s, Choose) && s.pc.job.Callback? && s.queue.waitListCount == 0
    ensures Inv(dir, Step(dir, s, Choose))
  {
    hide QueueOk, Conserved, InOrder, Alternating, ValidQueue, BufPackets, Decides;
    QuietFrame(dir, s, Step(dir, s, Choose));
    Assemble(dir, Step(dir, s, Choose));
  }

  lemma ChooseKeepsInv(dir: Directory, s: Sys)
    requires Inv(dir, s) && Enabled(dir, s, Choose)
    ensures Inv(dir, Step(dir, s, Choose))
  {
    hide Inv, Step;
    assert Shaped(dir, s) by { ShapedOfInv(dir, s); }
    if s.pc.job.Callback? {
      if s.queue.waitListCount == 0 {
        ChooseNothingKeepsInv(dir, s);
      } else {
        ChooseCallbackKeepsInv(dir, s);
      }
    } else {
      if s.queue.rings[s.pc.job.flow].writeHead == s.queue.rings[s.pc.job.flow].readHead {
        ChooseDirectKeepsInv(dir, s);
      } else {
        ChooseSwapKeepsInv(dir, s);
      }
    }
  }

  lemma ShapedOfInv(dir: Directory, s: Sys)
    requires Inv(dir, s)
    ensures Shaped(dir, s)
  {
  }

  // ---- Issue: the packet in hand is submitted ----

  lemma IssueInOrder(dir: Directory, s: Sys, f: nat)
    requires Inv(dir, s) && Enabled(dir, s, Issue) && f < FLOWS
    ensures InOrder(dir, Step(dir, s, Issue), f)
  {
    hide ValidQueue, Contents, Alternating, InOrder, Conserved, Accounted, RingPackets, BufPackets, OfFlow, Step;
    assert InOrder(dir, s, f);
    var p := s.bufs[s.pc.buf].pkt.value;
    assert s.bufs[s.pc.buf].pkt.Some?;
    hide BufsOk, Shaped;
    OfFlowAppend(dir, s.log.submitted, p, f);
    OfFlowSingle(dir, p, f);
    IssueOrder(dir, s, p, f);
  }

  lemma IssueOrder(dir: Directory, s: Sys, p: Packet, f: nat)
    requires Shaped(dir, s) && s.pc.Submit? && s.bufs[s.pc.buf].pkt == Some(p) && f < FLOWS && InOrder(dir, s, f)
    requires OfFlow(dir, s.log.submitted + [p], f) == OfFlow(dir, s.log.submitted, f) + OfFlow(dir, [p], f)
    ensures InOrder(dir, Step(dir, s, Issue), f)
  {
    hide ValidQueue, Contents, OfFlow;
  }

  lemma IssueRest(dir: Directory, s: Sys)
    requires Inv(dir, s) && Enabled(dir, s, Issue)
    ensures var s' := Step(dir, s, Issue);
            Shaped(dir, s') && QueueOk(dir, s') && BufsOk(s') && Conserved(s') && Accounted(s')
  {
    hide ValidQueue, Contents, Alternating, InOrder, RingPackets, BufPackets, OfFlow, Decides;
  }

  lemma IssueKeepsInv(dir: Directory, s: Sys)
    requires Inv(dir, s) && Enabled(dir, s, Issue)
    ensures Inv(dir, Step(dir, s, Issue))
  {
    IssueRest(dir, s);
    forall f | 0 <= f < FLOWS
      ensures InOrder(dir, Step(dir, s, Issue), f)
    {
      IssueInOrder(dir, s, f);
    }
    hide Shaped, QueueOk, BufsOk, Conserved, Accounted, InOrder;
    Assemble(dir, Step(dir, s, Issue));
  }

  // ---- Refuse: aio_read fails and the packet in hand is lost ----

  lemma RefuseOrder(dir: Directory, s: Sys, p: Packet, f: nat)
    requires Shaped(dir, s) && s.pc.Submit? && s.bufs[s.pc.buf].pkt == Some(p) && f < FLOWS && InOrder(dir, s, f)
    ensures ValidQueue(Step(dir, s, Refuse).queue) && InOrder(dir, Step(dir, s, Refuse), f)
  {
    hide ValidQueue, Contents, OfFlow;
    OfFlowAppend(dir, s.log.submitted, p, f);
    OfFlowSingle(dir, p, f);
  }

  lemma RefuseSum(dir: Directory, s: Sys, p: Packet)
    requires Shaped(dir, s) && s.pc.Submit? && s.bufs[s.pc.buf].pkt == Some(p) && Conserved(s)
    ensures ValidQueue(Step(dir, s, Refuse).queue) && Conserved(Step(dir, s, Refuse))
  {
    hide ValidQueue, Contents, RingPackets, BufPackets;
    BufPacketsUpdate(s.bufs, s.pc.buf, Buf(FREE, None));
    assert BufPackets(Step(dir, s, Refuse).bufs) + multiset{p} == BufPackets(s.bufs);
    assert multiset(s.log.lost + [p]) == multiset(s.log.lost) + multiset{p};
  }

  lemma RefuseRest(dir: Directory, s: Sys)
    requires Inv(dir, s) && Enabled(dir, s, Refuse)
    ensures s.bufs[s.pc.buf].pkt.Some?
    ensures var s' := Step(dir, s, Refuse); Shaped(dir, s') && QueueOk(dir, s') && BufsOk(s') && Accounted(s')
  {
    hide ValidQueue, Contents, Alternating, InOrder, Conserved, RingPackets, BufPackets, OfFlow, Decides;
  }

  lemma RefuseKeepsInv(dir: Directory, s: Sys)
    requires Inv(dir, s) && Enabled(dir, s, Refuse)
    ensures Inv(dir, Step(dir, s, Refuse))
  {
    hide Shaped, QueueOk, BufsOk, Conserved, Accounted, InOrder, Step;
    ShapedOfInv(dir, s);
    RefuseRest(dir, s);
    var p := s.bufs[s.pc.buf].pkt.value;
    RefuseSum(dir, s, p);
    forall f | 0 <= f < FLOWS
      ensures InOrder(dir, Step(dir, s, Refuse), f)
    {
      assert InOrder(dir, s, f);
      RefuseOrder(dir, s, p, f);
    }
    Assemble(dir, Step(dir, s, Refuse));
  }

  // ---- Complete: the packet in a buffer is returned ----

  lemma CompleteConserved(dir: Directory, s: Sys, b: nat)
    requires Inv(dir, s) && Enabled(dir, s, Complete(b))
    ensures Conserved(Step(dir, s, Complete(b)))
  {
    hide ValidQueue, Contents, Alternating, InOrder, RingPackets, BufPackets, OfFlow, Accounted, Step;
    assert s.bufs[b].pkt.Some?;
    hide BufsOk;
    CompleteSum(dir, s, b);
  }

  lemma CompleteSum(dir: Directory, s: Sys, b: nat)
    requires Shaped(dir, s) && Conserved(s) && Enabled(dir, s, Complete(b)) && s.bufs[b].pkt.Some?
    ensures ValidQueue(Step(dir, s, Complete(b)).queue) && Conserved(Step(dir, s, Complete(b)))
  {
    hide ValidQueue, Contents, RingPackets, BufPackets;
    var s', p := Step(dir, s, Complete(b)), s.bufs[b].pkt.value;
    BufPacketsUpdate(s.bufs, b, Buf(FREE, None));
    assert BufPackets(s'.bufs) + multiset{p} == BufPackets(s.bufs);
    assert multiset(s.log.returned + [p]) == multiset(s.log.returned) + multiset{p};
  }

  lemma CompleteInOrder(dir: Directory, s: Sys, b: nat, f: nat)
    requires Inv(dir, s) && Enabled(dir, s, Complete(b)) && f < FLOWS
    ensures InOrder(dir, Step(dir, s, Complete(b)), f)
  {
    hide Decides;
    assert InOrder(dir, s, f);
    assert s.pc.Submit? ==> s.pc.buf != b;
    hide ValidQueue, Contents, InOrder, BufsOk, Shaped, Inv, Step;
    CompleteOrder(dir, s, b, f);
  }

  lemma CompleteOrder(dir: Directory, s: Sys, b: nat, f: nat)
    requires Shaped(dir, s) && Enabled(dir, s, Complete(b)) && f < FLOWS && InOrder(dir, s, f)
    requires s.pc.Submit? ==> s.pc.buf != b
    ensures ValidQueue(Step(dir, s, Complete(b)).queue) && InOrder(dir, Step(dir, s, Complete(b)), f)
  {
    hide ValidQueue, Contents, OfFlow;
  }

  lemma CompleteRest(dir: Directory, s: Sys, b: nat)
    requires Inv(dir, s) && Enabled(dir, s, Complete(b))
    ensures var s' := Step(dir, s, Complete(b));
            Shaped(dir, s') && QueueOk(dir, s') && BufsOk(s') && Accounted(s')
  {
    hide ValidQueue, Contents, Alternating, InOrder, Conserved, RingPackets, BufPackets, OfFlow, Decides;
  }

  lemma CompleteKeepsInv(dir: Directory, s: Sys, b: nat)
    requires Inv(dir, s) && Enabled(dir, s, Complete(b))
    ensures Inv(dir, Step(dir, s, Complete(b)))
  {
    CompleteRest(dir, s, b);
    CompleteConserved(dir, s, b);
    forall f | 0 <= f < FLOWS
      ensures InOrder(dir, Step(dir, s, Complete(b)), f)
    {
      CompleteInOrder(dir, s, b, f);
    }
    hide Shaped, QueueOk, BufsOk, Conserved, Accounted, InOrder;
    Assemble(dir, Step(dir, s, Complete(b)));
  }

  // ---- Every run ----

  lemma StepKeepsInv(dir: Directory, s: Sys, a: Action)
    requires Inv(dir, s) && Enabled(dir, s, a)
    ensures Inv(dir, Step(dir, s, a))
  {
    match a
    case Arrive(p) => ArriveKeepsInv(dir, s, p);
    case StartCallback => StartCallbackKeepsInv(dir, s);
    case Look =>
      if s.bufs[s.pc.next].state == FREE {
        LookFreeKeepsInv(dir, s);
      } else {
        LookBusyKeepsInv(dir, s);
      }
    case GiveUp => GiveUpKeepsInv(dir, s);
    case Choose => ChooseKeepsInv(dir, s);
    case Issue => IssueKeepsInv(dir, s);
    case Refuse => RefuseKeepsInv(dir, s);
    case SetSubmitted => SetSubmittedKeepsInv(dir, s);
    case Complete(b) => CompleteKeepsInv(dir, s, b);
  }

  // The state after initialize_aio_nf with a pool of `n` buffers.
  ghost function Initial(n: nat): Sys {
    Sys(EMPTY_QUEUE, seq(n, _ => Buf(FREE, None)), {}, Idle, Log([], [], [], [], [], [], seq(FLOWS, _ => [])))
  }

  lemma {:induction false} NoPacketsInFreshBufs(bufs: seq<Buf>)
    requires forall b | 0 <= b < |bufs| :: bufs[b].pkt.None?
    ensures BufPackets(bufs) == multiset{}
  {
    if |bufs| > 0 {
      NoPacketsInFreshBufs(bufs[..|bufs| - 1]);
    }
  }

  lemma {:induction false} NoPacketsInEmptyRings(rings: seq<Ring>)
    requires forall f | 0 <= f < |rings| :: ValidRing(rings[f]) && Contents(rings[f]) == []
    ensures RingPackets(rings) == multiset{}
  {
    hide ValidRing, Contents;
    if |rings| > 0 {
      NoPacketsInEmptyRings(rings[..|rings| - 1]);
    }
  }

  lemma InitialInv(dir: Directory, n: nat)
    ensures Inv(dir, Initial(n))
  {
    var s := Initial(n);
    EmptyQueueIsValid();
    NoPacketsInFreshBufs(s.bufs);
    NoPacketsInEmptyRings(s.queue.rings);
    hide ValidRing, Contents;
    assert Shaped(dir, s) && Conserved(s) && BufsOk(s) && Accounted(s);
    forall f | 0 <= f < FLOWS
      ensures InOrder(dir, s, f) && Alternating(s.log.signals[f], s.queue.rings[f].status)
    {
      assert s.queue.rings[f] == EMPTY_RING;
    }
    hide Shaped, Conserved, BufsOk, Accounted, InOrder, Alternating;
  }

  // What a run does: a list of actions, each enabled where it is taken.
  ghost predicate Runs(dir: Directory, s: Sys, actions: seq<Action>, t: Sys)
    decreases |actions|
  {
    if |actions| == 0 then s == t
    else Shaped(dir, s) && Enabled(dir, s, actions[0]) && Runs(dir, Step(dir, s, actions[0]), actions[1..], t)
  }

  lemma {:induction false} RunKeepsInv(dir: Directory, s: Sys, actions: seq<Action>, t: Sys)
    requires Inv(dir, s) && Runs(dir, s, actions, t)
    ensures Inv(dir, t)
    decreases |actions|
  {
    hide Inv, Shaped, Step;
    if |actions| > 0 {
      StepKeepsInv(dir, s, actions[0]);
      RunKeepsInv(dir, Step(dir, s, actions[0]), actions[1..], t);
    }
  }

  ghost predicate Reachable(dir: Directory, n: nat, s: Sys) {
    exists actions: seq<Action> :: Runs(dir, Initial(n), actions, s)
  }

  lemma ReachableInv(dir: Directory, n: nat, s: Sys)
    requires Reachable(dir, n, s)
    ensures Inv(dir, s)
  {
    hide Inv;
    var actions: seq<Action> :| Runs(dir, Initial(n), actions, s);
    InitialInv(dir, n);
    RunKeepsInv(dir, Initial(n), actions, s);
  }

  // ---- What follows for every reachable state ----

  // Between two calls, the accepted packets are those that came, without the dropped ones, in
  // order of arrival.
  lemma AcceptedInOrder(dir: Directory, n: nat, s: Sys)
    requires Reachable(dir, n, s) && s.pc.Idle?
    ensures Interleaves(s.log.arrived, s.log.accepted, s.log.dropped)
  {
    ReachableInv(dir, n, s);
    assert Accounted(s);
    hide Contents, OfFlow, ValidQueue, BufsOk, Conserved, InOrder, Alternating, Interleaves;
    assert s.log.arrived[..|s.log.arrived|] == s.log.arrived;
  }

  // Per-flow FIFO: between two calls, the packets accepted for a flow are the ones submitted to
  // I/O followed by the ones in the ring; they and the dropped ones of the flow make up the packets
  // that came for it, each in order of arrival. So a flow without drops is served as it came.
  lemma PerFlowFifo(dir: Directory, n: nat, s: Sys, f: nat)
    requires Reachable(dir, n, s) && s.pc.Idle? && f < FLOWS
    ensures ValidQueue(s.queue)
    ensures OfFlow(dir, s.log.accepted, f) == OfFlow(dir, s.log.submitted, f) + Contents(s.queue.rings[f])
    ensures Interleaves(OfFlow(dir, s.log.arrived, f), OfFlow(dir, s.log.accepted, f), OfFlow(dir, s.log.dropped, f))
    ensures OfFlow(dir, s.log.dropped, f) == [] ==>
              OfFlow(dir, s.log.arrived, f) == OfFlow(dir, s.log.submitted, f) + Contents(s.queue.rings[f])
  {
    hide Interleaves, Inv, Reachable, OfFlow, Contents;
    ReachableInv(dir, n, s);
    AcceptedInOrder(dir, n, s);
    InterleavedOfFlow(dir, s.log.arrived, s.log.accepted, s.log.dropped, f);
    SubmittedThenRing(dir, s, f);
    if OfFlow(dir, s.log.dropped, f) == [] {
      NothingInterleaved(OfFlow(dir, s.log.arrived, f), OfFlow(dir, s.log.accepted, f));
    }
  }

  lemma SubmittedThenRing(dir: Directory, s: Sys, f: nat)
    requires Inv(dir, s) && s.pc.Idle? && f < FLOWS
    ensures ValidQueue(s.queue)
    ensures OfFlow(dir, s.log.accepted, f) == OfFlow(dir, s.log.submitted, f) + Contents(s.queue.rings[f])
  {
    assert InOrder(dir, s, f);
    hide Contents, OfFlow, ValidQueue, BufsOk, Conserved, Accounted, Alternating;
  }

  // Conservation: between two calls, every packet that came is in a ring, in a buffer, returned,
  // dropped, or lost to a failing aio_read, and in only one of these.
  lemma PacketsConserved(dir: Directory, n: nat, s: Sys)
    requires Reachable(dir, n, s) && s.pc.Idle?
    ensures ValidQueue(s.queue)
    ensures multiset(s.log.arrived) ==
            RingPackets(s.queue.rings) + BufPackets(s.bufs) + multiset(s.log.returned) + multiset(s.log.dropped)
            + multiset(s.log.lost)
  {
    hide Interleaves, Decides;
    ReachableInv(dir, n, s);
    AcceptedInOrder(dir, n, s);
    InterleavedPackets(s.log.arrived, s.log.accepted, s.log.dropped);
    assert Conserved(s);
    hide Contents, ValidQueue, BufsOk, Alternating, InOrder, Accounted, RingPackets, BufPackets, Interleaves;
  }

  // A packet is dropped only at the end of a scan that found no free buffer, when 2047 packets of
  // its flow wait. Every buffer that is free by then was freed by a completion during the scan.
  lemma DropsOnlyWhenFull(dir: Directory, n: nat, s: Sys, a: Action)
    requires Reachable(dir, n, s) && Shaped(dir, s) && Enabled(dir, s, a)
    requires Step(dir, s, a).log.dropped != s.log.dropped
    ensures a.GiveUp? && s.pc.job.Handle?
    ensures s.queue.rings[s.pc.job.flow].count == 2047
    ensures forall b | 0 <= b < |s.bufs| :: s.bufs[b].state != FREE || b in s.pc.freed
  {
    ReachableInv(dir, n, s);
    if a.Choose? && s.pc.job.Handle? {
      ChooseNeverDrops(dir, s);
      hide *;
    } else if a.GiveUp? && s.pc.job.Handle? {
      GiveUpDrops(dir, s);
      hide *;
    } else {
      NothingElseDrops(dir, s, a);
      hide *;
    }
    hide *;
  }

  lemma GiveUpDrops(dir: Directory, s: Sys)
    requires Inv(dir, s) && Enabled(dir, s, GiveUp) && s.pc.job.Handle?
    requires Step(dir, s, GiveUp).log.dropped != s.log.dropped
    ensures s.queue.rings[s.pc.job.flow].count == 2047
    ensures forall b | 0 <= b < |s.bufs| :: s.bufs[b].state != FREE || b in s.pc.freed
  {
    QueueOfInv(dir, s);
    GiveUpStep(dir, s);
    hide ValidQueue, Contents, Alternating, InOrder, Conserved, Accounted, QueueOk, Step, Enqueue;
    EnqueueEffect(dir, s, s.pc.job.flow, s.pc.job.pkt);
  }

  lemma NothingElseDrops(dir: Directory, s: Sys, a: Action)
    requires Shaped(dir, s) && Enabled(dir, s, a)
    requires a.Choose? || a.GiveUp? ==> s.pc.job.Callback?
    ensures Step(dir, s, a).log.dropped == s.log.dropped
  {
    hide ValidQueue, Contents, Removed, FirstWaiting, Decides;
  }

  lemma ChooseNeverDrops(dir: Directory, s: Sys)
    requires Inv(dir, s) && Enabled(dir, s, Choose) && s.pc.job.Handle?
    ensures Step(dir, s, Choose).log.dropped == s.log.dropped
  {
    QueueOfInv(dir, s);
    RingsOfOk(dir, s);
    var f, p := s.pc.job.flow, s.pc.job.pkt;
    EmptyIff(s.queue.rings[f]);
    CountIsLength(s.queue.rings[f]);
    hide ValidQueue, ValidRing, Contents, Alternating, QueueOk, InOrder, Conserved, Accounted, BufsOk, Enqueue, Dequeue;
    if s.queue.rings[f].writeHead != s.queue.rings[f].readHead {
      SwapDropsNothing(dir, s, f, p);
    }
    hide Inv, Shaped;
  }

  lemma SwapDropsNothing(dir: Directory, s: Sys, f: nat, p: Packet)
    requires QueueOk(dir, s) && f < FLOWS && s.queue.rings[f].count > 0 && p in dir && dir[p] == f
    ensures ValidQueue(Dequeue(s, f).queue) && |Dequeue(s, f).log.signals| == FLOWS
    ensures Enqueue(Dequeue(s, f), f, p).log.dropped == s.log.dropped
  {
    hide *;
    RingsOfOk(dir, s);
    DequeueEffect(dir, s, f);
    RoomAfterDequeue(dir, s, f);
    RingsOfOk(dir, Dequeue(s, f));
    EnqueueEffect(dir, Dequeue(s, f), f, p);
    assert s.log.dropped + [] == s.log.dropped;
  }

  // Backpressure: the ring never holds more than 2047 packets, a marked flow has more than 1024,
  // an unmarked one fewer than 1638, and marks and clears strictly alternate. The number of
  // waiting flows is always right.
  lemma Backpressure(dir: Directory, n: nat, s: Sys, f: nat)
    requires Reachable(dir, n, s) && f < FLOWS
    ensures ValidQueue(s.queue) && s.queue.waitListCount == NonEmpty(s.queue.rings)
    ensures var r := s.queue.rings[f];
            && r.count == (r.writeHead - r.readHead) % 2048 && r.count <= 2047
            && (r.status == OVER ==> r.count > 1024)
            && (r.status == NORMAL ==> r.count < 1638)
            && |s.log.signals| == FLOWS && Alternating(s.log.signals[f], r.status)
  {
    hide ValidRing, Inv, Reachable;
    ReachableInv(dir, n, s);
    RingsOfInv(dir, s, f);
    CountIsDistanceModulo(s.queue.rings[f]);
    MarkedIsFull(s.queue.rings[f]);
  }

  lemma MarkedIsFull(r: Ring)
    requires ValidRing(r)
    ensures (r.status == OVER ==> r.count > 1024) && (r.status == NORMAL ==> r.count < 1638)
  {
  }

  lemma RingsOfInv(dir: Directory, s: Sys, f: nat)
    requires Inv(dir, s) && f < FLOWS
    ensures ValidQueue(s.queue) && ValidRing(s.queue.rings[f])
    ensures |s.log.signals| == FLOWS && Alternating(s.log.signals[f], s.queue.rings[f].status)
  {
    hide ValidRing, Contents, InOrder, Conserved, Accounted, BufsOk;
  }
}
