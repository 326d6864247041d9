/**
 The NF of `examples/aio_aclread/aio_aclread.c` as a class whose methods update the rings and the
 buffer pool step by step. Between the steps of the NF thread any I/O may complete. Every call of
 the packet handler and of the explicit callback is proved to be a run of the transition system of
 AioSystem, so all that AioInvariant proves of runs holds of the class.
 */
module AioReader {
  import opened Options
  import opened WaitRing
  import opened AioSystem
  import opened AioInvariant
  import opened AioSteps
  import opened AioCalls

  const MARK_PACKET_TO_RETAIN := 1
  const MARK_PACKET_FOR_DROP := 2

  class Reader {
    const dir: Directory
    // pre_io_wait_ring
    var waitListCount: int
    const flowPkts: array<Ring>
    // aio_buf_pool, and the requests that the asynchronous I/O layer is working on
    const bufs: array<Buf>
    var inFlight: set<nat>
    ghost var log: Log

    // The state of the transition system while the NF thread stands at `pc`.
    ghost function At(pc: Pc): Sys
      reads this, flowPkts, bufs
    {
      Sys(Queue(waitListCount, flowPkts[..]), bufs[..], inFlight, pc, log)
    }

    constructor (dir: Directory, maxBufs: nat)
      ensures this.dir == dir && fresh(flowPkts) && fresh(bufs)
      ensures At(Idle) == Initial(maxBufs)
    {
      this.dir := dir;
      waitListCount := 0;
      flowPkts := new Ring[FLOWS](_ => EMPTY_RING);
      bufs := new Buf[maxBufs](_ => Buf(FREE, None));
      inFlight := {};
      log := Log([], [], [], [], [], [], seq(FLOWS, _ => []));
    }

    // add_flow_pkt_to_pre_io_wait_queue
    method AddFlowPkt(pkt: Packet, f: nat, ghost pc: Pc) returns (code: int)
      requires f < FLOWS && ValidQueue(At(pc).queue) && |log.signals| == FLOWS
      modifies this`waitListCount, this`log, flowPkts
      ensures At(pc) == Enqueue(old(At(pc)), f, pkt)
      ensures code == Added(old(flowPkts[f]), pkt).code
    {
      hide ValidRing, ValidQueue;
      RingShape(At(pc).queue, f);
      ghost var r, signals := flowPkts[f], log.signals;
      assert r == At(pc).queue.rings[f];
      NoSignal(signals, f);
      if (flowPkts[f].writeHead + 1) % RING_SIZE == flowPkts[f].readHead {
        if flowPkts[f].status != OVER {
          flowPkts[f] := flowPkts[f].(status := OVER);
          log := log.(signals := Signalled(log.signals, f, [Mark]));
        }
        log := log.(dropped := log.dropped + [pkt]);
        code := 1;
      } else {
        if flowPkts[f].count == 0 {
          waitListCount := waitListCount + 1;
        }
        flowPkts[f] := flowPkts[f].(slots := flowPkts[f].slots[flowPkts[f].writeHead := Some(pkt)]);
        flowPkts[f] := flowPkts[f].(count := flowPkts[f].count + 1);
        flowPkts[f] := flowPkts[f].(writeHead := flowPkts[f].writeHead + 1);
        if flowPkts[f].writeHead == RING_SIZE {
          flowPkts[f] := flowPkts[f].(writeHead := 0);
        }
        if flowPkts[f].count >= HIGH_WATERMARK {
          if flowPkts[f].status == NORMAL {
            flowPkts[f] := flowPkts[f].(status := OVER);
            log := log.(signals := Signalled(log.signals, f, [Mark]));
          }
        }
        log := log.(accepted := log.accepted + [pkt]);
        code := 0;
      }
      assert flowPkts[f] == Added(r, pkt).ring;
      assert flowPkts[..] == old(flowPkts[..])[f := Added(r, pkt).ring];
    }

    // get_next_pkt_for_flow_entry_from_pre_io_wait_queue
    method GetNextPkt(f: nat, ghost pc: Pc) returns (pkt: Option<Packet>)
      requires f < FLOWS && ValidQueue(At(pc).queue) && |log.signals| == FLOWS
      modifies this`waitListCount, this`log, flowPkts
      ensures At(pc) == Dequeue(old(At(pc)), f)
      ensures pkt == Removed(old(flowPkts[f])).pkt
    {
      hide ValidRing, ValidQueue;
      RingShape(At(pc).queue, f);
      ghost var r, signals := flowPkts[f], log.signals;
      assert r == At(pc).queue.rings[f];
      NoSignal(signals, f);
      pkt := None;
      if flowPkts[f].writeHead != flowPkts[f].readHead {
        pkt := flowPkts[f].slots[flowPkts[f].readHead];
        if pkt.Some? {
          flowPkts[f] := flowPkts[f].(slots := flowPkts[f].slots[flowPkts[f].readHead := None]);
          flowPkts[f] := flowPkts[f].(readHead := flowPkts[f].readHead + 1);
          if flowPkts[f].readHead == RING_SIZE {
            flowPkts[f] := flowPkts[f].(readHead := 0);
          }
          flowPkts[f] := flowPkts[f].(count := flowPkts[f].count - 1);
          if flowPkts[f].count == 0 {
            waitListCount := waitListCount - 1;
          } else if flowPkts[f].count <= LOW_WATERMARK {
            if flowPkts[f].status != NORMAL {
              flowPkts[f] := flowPkts[f].(status := NORMAL);
              log := log.(signals := Signalled(log.signals, f, [Clear]));
            }
          }
        }
      }
      assert flowPkts[f] == Removed(r).ring;
      assert flowPkts[..] == old(flowPkts[..])[f := Removed(r).ring];
    }

    // is_flow_pkt_in_pre_io_wait_queue: whether packets of the flow wait.
    method IsFlowPktWaiting(f: nat) returns (waiting: bool)
      requires f < flowPkts.Length && ValidRing(flowPkts[f])
      ensures waiting <==> Contents(flowPkts[f]) != []
    {
      EmptyIff(flowPkts[f]);
      waiting := flowPkts[f].writeHead != flowPkts[f].readHead;
    }

    // notify_io_rw_done: runs on another thread when the I/O of buffer `b` completes. It wakes the
    // explicit callback if packets of any flow wait.
    method NotifyIoRwDone(b: nat, ghost pc: Pc) returns (wake: bool, ghost pc': Pc)
      requires Inv(dir, At(pc)) && b in inFlight
      modifies this`inFlight, this`log, bufs
      ensures At(pc') == Completed(dir, old(At(pc)), b)
      ensures wake <==> SomeoneWaits(At(pc').queue)
    {
      WaitingIsCounted(dir, At(pc));
      CompletedIs(dir, At(pc), b);
      hide Inv, Completed, SomeoneWaits;
      pc' := if pc.Scan? then pc.(freed := pc.freed + {b}) else pc;
      if bufs[b].pkt.Some? {
        log := log.(returned := log.returned + [bufs[b].pkt.value]);
      }
      bufs[b] := bufs[b].(pkt := None);
      bufs[b] := bufs[b].(state := FREE);
      inFlight := inFlight - {b};
      wake := waitListCount != 0;
      assert bufs[..] == old(bufs[..])[b := Buf(FREE, None)];
    }

    // Any number of completions, in any order: what may happen while the NF thread stands at `pc`.
    method Interfere(ghost pc: Pc) returns (ghost pc': Pc, ghost did: seq<Action>)
      requires Inv(dir, At(pc))
      modifies this`inFlight, this`log, bufs
      ensures Continues(dir, old(At(pc)), did, At(pc')) && Inv(dir, At(pc'))
      ensures if pc.Scan? then pc'.Scan? && pc'.job == pc.job && pc'.next == pc.next else pc' == pc
      ensures log == old(log).(returned := log.returned)
      ensures forall a | a in did :: a.Complete?
      ensures forall b | 0 <= b < bufs.Length ::
                bufs[b] == old(bufs[b]) || (bufs[b] == Buf(FREE, None) && Complete(b) in did)
    {
      hide Inv, Continues, Enabled;
      pc', did := pc, [];
      ContinuesItself(dir, At(pc));
      var completions: seq<nat> := *;
      for i := 0 to |completions|
        invariant Continues(dir, old(At(pc)), did, At(pc')) && Inv(dir, At(pc'))
        invariant if pc.Scan? then pc'.Scan? && pc'.job == pc.job && pc'.next == pc.next else pc' == pc
        invariant log == old(log).(returned := log.returned)
        invariant forall a | a in did :: a.Complete?
        invariant forall b | 0 <= b < bufs.Length ::
                    bufs[b] == old(bufs[b]) || (bufs[b] == Buf(FREE, None) && Complete(b) in did)
      {
        if completions[i] in inFlight {
          ghost var before := At(pc');
          CompleteIsEnabled(dir, before, completions[i]);
          CompletedIs(dir, before, completions[i]);
          OneStep(dir, before, Complete(completions[i]));
          var wake;
          wake, pc' := NotifyIoRwDone(completions[i], pc');
          ContinuesOn(dir, old(At(pc)), did, before, [Complete(completions[i])], At(pc'));
          did := did + [Complete(completions[i])];
        }
      }
    }

    // get_aio_buffer_from_aio_buf_pool(AIO_READ_OPERATION)
    method GetAioBuffer(ghost job: Job, ghost start: Pc)
      returns (b: Option<nat>, ghost pc: Pc, ghost did: seq<Action>)
      requires start == Scan(job, 0, {}) && Inv(dir, At(start))
      modifies this`inFlight, this`log, bufs
      ensures Continues(dir, old(At(start)), did, At(pc)) && Inv(dir, At(pc))
      ensures forall a | a in did :: a.Look? || a.Complete?
      ensures log == old(log).(returned := log.returned)
      ensures b.Some? ==> pc == Got(job, b.value) && b.value < bufs.Length
      ensures b.Some? ==> old(bufs[b.value].state) == FREE || Complete(b.value) in did
      ensures b.None? ==> pc.Scan? && pc.job == job && pc.next == bufs.Length
      ensures b.None? ==> forall c | 0 <= c < bufs.Length ::
                old(bufs[c].state) != FREE && (bufs[c].state == FREE ==> Complete(c) in did)
    {
      hide Inv, Continues, Enabled, Step;
      pc, did := start, [];
      ContinuesItself(dir, At(pc));
      for i := 0 to bufs.Length
        invariant Continues(dir, old(At(start)), did, At(pc)) && Inv(dir, At(pc))
        invariant forall a | a in did :: a.Look? || a.Complete?
        invariant pc.Scan? && pc.job == job && pc.next == i
        invariant log == old(log).(returned := log.returned)
        invariant forall c | 0 <= c < bufs.Length ::
                    bufs[c] == old(bufs[c]) || (bufs[c] == Buf(FREE, None) && Complete(c) in did)
        invariant forall c | 0 <= c < i :: old(bufs[c].state) != FREE
      {
        ghost var at0, more := At(pc), [];
        pc, more := Interfere(pc);
        ghost var at1 := At(pc);
        ContinuesOn(dir, old(At(start)), did, at0, more, at1);
        did := did + more;
        LookIs(dir, at1);
        OneStep(dir, at1, Look);
        if bufs[i].state == FREE {
          bufs[i] := bufs[i].(state := IN_USE);
          pc := Got(job, i);
          assert bufs[..] == at1.bufs[i := at1.bufs[i].(state := IN_USE)];
          assert At(pc) == Step(dir, at1, Look);
          ContinuesOn(dir, old(At(start)), did, at1, [Look], At(pc));
          did := did + [Look];
          return Some(i), pc, did;
        }
        pc := pc.(next := i + 1);
        assert At(pc) == Step(dir, at1, Look);
        ContinuesOn(dir, old(At(start)), did, at1, [Look], At(pc));
        did := did + [Look];
      }
      b := None;
    }

    // read_aio_buffer. Whether aio_read accepts the request is not ours to say; if it does not, the
    // buffer is cleared and the packet is neither processed nor returned.
    method ReadAioBuffer(b: nat, ghost job: Job) returns (submitted: bool, ghost did: seq<Action>)
      requires Inv(dir, At(Submit(job, b))) && b < bufs.Length && bufs[b].pkt.Some?
      modifies this`inFlight, this`log, bufs
      ensures Continues(dir, old(At(Submit(job, b))), did, At(After(job))) && Inv(dir, At(After(job)))
      ensures log == old(log).(submitted := old(log).submitted + [old(bufs[b]).pkt.value],
                               returned := log.returned, lost := log.lost)
      ensures submitted ==> did != [] && did[0] == Issue && log.lost == old(log.lost) && bufs[b].state == SUBMITTED
      ensures !submitted ==> did == [Refuse] && At(After(job)) == Refused(dir, old(At(Submit(job, b))))
    {
      hide Inv, Continues, Enabled, Step;
      ghost var at0 := At(Submit(job, b));
      submitted := *;
      if !submitted {
        RefuseIs(dir, at0);
        OneStep(dir, at0, Refuse);
        log := Lost(log, bufs[b].pkt.value);
        bufs[b] := bufs[b].(pkt := None);
        bufs[b] := bufs[b].(state := FREE);
        assert bufs[..] == at0.bufs[b := Buf(FREE, None)];
        assert At(After(job)) == Step(dir, at0, Refuse) == Refused(dir, at0);
        return false, [Refuse];
      }
      IssueIs(dir, at0);
      OneStep(dir, at0, Issue);
      inFlight := inFlight + {b};
      log := log.(submitted := log.submitted + [bufs[b].pkt.value]);
      ghost var at1 := At(Issued(job, b));
      assert at1 == Step(dir, at0, Issue);

      ghost var pc, more := Interfere(Issued(job, b));
      ghost var at2 := At(pc);
      ContinuesOn(dir, at0, [Issue], at1, more, at2);

      SetSubmittedIs(dir, at2);
      OneStep(dir, at2, SetSubmitted);
      bufs[b] := bufs[b].(state := SUBMITTED);
      ghost var at3 := At(After(job));
      assert bufs[..] == at2.bufs[b := at2.bufs[b].(state := SUBMITTED)];
      assert at3 == Step(dir, at2, SetSubmitted);
      ContinuesOn(dir, at0, [Issue] + more, at2, [SetSubmitted], at3);
      did := [Issue] + more + [SetSubmitted];
    }

    // The part of packet_process_io that has a buffer.
    method ProcessWithBuffer(pkt: Packet, f: nat, b: nat) returns (ret: int, ghost did: seq<Action>)
      requires b < bufs.Length && Inv(dir, At(Got(Handle(pkt, f), b)))
      modifies this`waitListCount, this`inFlight, this`log, flowPkts, bufs
      ensures Continues(dir, old(At(Got(Handle(pkt, f), b))), did, At(Idle)) && Inv(dir, At(Idle))
      ensures ret == MARK_PACKET_TO_RETAIN && log.arrived == old(log.arrived)
      ensures log.accepted == old(log.accepted) + [pkt] && log.dropped == old(log.dropped)
      ensures f < FLOWS && ValidQueue(old(At(Got(Handle(pkt, f), b))).queue) && ValidQueue(At(Idle).queue)
      ensures TakesFirst(old(At(Got(Handle(pkt, f), b))), f, pkt, At(Idle))
    {
      hide Inv, Continues, Enabled, Step, Enqueue, Dequeue, ValidQueue, ValidRing, QueueOk, Contents, Full, TakesFirst;
      ghost var job := Handle(pkt, f);
      ghost var pc := Got(job, b);
      ghost var at0 := At(pc);
      InvGives(dir, at0);
      ChooseIs(dir, at0);
      OneStep(dir, at0, Choose);
      var ioPkt := Some(pkt);
      ret := MARK_PACKET_TO_RETAIN;
      EmptyIff(flowPkts[f]);
      var queued := IsFlowPktWaiting(f);
      if queued {
        QueuedChoice(dir, at0, f, pkt);
        ioPkt := GetNextPkt(f, pc);
        assert At(pc) == Dequeue(at0, f);
        var code := AddFlowPkt(pkt, f, pc);
        if code != 0 {
          ret := MARK_PACKET_FOR_DROP;
        }
      } else {
        log := log.(accepted := log.accepted + [pkt]);
      }
      bufs[b] := bufs[b].(pkt := ioPkt);
      assert bufs[..] == at0.bufs[b := at0.bufs[b].(pkt := ioPkt)];
      assert At(Submit(job, b)) == Step(dir, at0, Choose);
      ghost var at1 := At(Submit(job, b));
      did := [Choose];
      if ioPkt.Some? {
        var submitted, more := ReadAioBuffer(b, job);
        ContinuesOn(dir, at0, [Choose], at1, more, At(Idle));
        did := [Choose] + more;
      }
      if queued {
        QueuedTakesFirst(dir, at0, f, pkt, At(Idle));
      } else {
        DirectTakesFirst(dir, at0, f, pkt, At(Idle));
      }
    }

    // packet_process_io for a packet of flow `f`. If a buffer is free at the start, a packet is
    // submitted; if none is and none becomes free, none is.
    method PacketProcessIo(pkt: Packet, f: nat) returns (ret: int, ghost did: seq<Action>)
      requires Inv(dir, At(Idle)) && pkt in dir && dir[pkt] == f
      modifies this`waitListCount, this`inFlight, this`log, flowPkts, bufs
      ensures Runs(dir, old(At(Idle)), did, At(Idle)) && Inv(dir, At(Idle))
      ensures did != [] && did[0] == Arrive(pkt) && Going(did[1..])
      ensures log.arrived == old(log.arrived) + [pkt]
      ensures ret == MARK_PACKET_TO_RETAIN || ret == MARK_PACKET_FOR_DROP
      ensures log.accepted == old(log.accepted) + (if ret == MARK_PACKET_TO_RETAIN then [pkt] else [])
      ensures log.dropped == old(log.dropped) + (if ret == MARK_PACKET_FOR_DROP then [pkt] else [])
      ensures ValidQueue(old(At(Idle)).queue) && ValidQueue(At(Idle).queue)
      ensures TakesFirst(old(At(Idle)), f, pkt, At(Idle)) || Waits(old(At(Idle)), f, pkt, At(Idle))
      ensures (exists b :: 0 <= b < bufs.Length && old(bufs[b].state) == FREE) ==>
                TakesFirst(old(At(Idle)), f, pkt, At(Idle))
      ensures (forall b | 0 <= b < bufs.Length :: old(bufs[b].state) != FREE && Complete(b) !in did) ==>
                Waits(old(At(Idle)), f, pkt, At(Idle))
      ensures Waits(old(At(Idle)), f, pkt, At(Idle)) ==>
                forall b | 0 <= b < bufs.Length :: bufs[b].state == FREE ==> Complete(b) in did
    {
      hide Inv, Runs, Continues, Enabled, Step, Enqueue, Dequeue, ValidQueue, ValidRing, QueueOk, Contents, Full;
      ghost var job := Handle(pkt, f);
      ghost var at0 := At(Idle);
      ArriveIs(dir, at0, pkt);
      OneStep(dir, at0, Arrive(pkt));
      log := log.(arrived := log.arrived + [pkt]);
      ghost var start := At(Scan(job, 0, {}));
      assert start == Step(dir, at0, Arrive(pkt));

      var pbuf, pc, scan := GetAioBuffer(job, Scan(job, 0, {}));
      ghost var at1 := At(pc);
      InvGives(dir, at1);
      if pbuf.None? {
        GiveUpIs(dir, at1);
        OneStep(dir, at1, GiveUp);
        EnqueueEffect(dir, at1, f, pkt);
        EnqueueCode(dir, at1, f, pkt);
        var code := AddFlowPkt(pkt, f, pc);
        assert At(Idle) == Step(dir, at1, GiveUp);
        ContinuesOn(dir, start, scan, at1, [GiveUp], At(Idle));
        CallOf(dir, at0, Arrive(pkt), start, scan + [GiveUp], At(Idle));
        did := [Arrive(pkt)] + (scan + [GiveUp]);
        EnqueuedWaits(dir, at1, f, pkt, At(Idle));
        ret := if code == 0 then MARK_PACKET_TO_RETAIN else MARK_PACKET_FOR_DROP;
      } else {
        ghost var rest;
        ret, rest := ProcessWithBuffer(pkt, f, pbuf.value);
        ContinuesOn(dir, start, scan, at1, rest, At(Idle));
        CallOf(dir, at0, Arrive(pkt), start, scan + rest, At(Idle));
        did := [Arrive(pkt)] + (scan + rest);
      }
    }

    // packet_handler: packets without a flow entry and packets that need no I/O are bridged. The
    // result 1 keeps the packet, 0 gives it back, to be dropped or to be sent out.
    method PacketHandler(pkt: Packet, needsIo: bool) returns (ret: int, dropIt: bool, ghost did: seq<Action>)
      requires Inv(dir, At(Idle))
      modifies this`waitListCount, this`inFlight, this`log, flowPkts, bufs
      ensures Runs(dir, old(At(Idle)), did, At(Idle)) && Inv(dir, At(Idle))
      ensures did == [] <==> pkt !in dir || !needsIo
      ensures did != [] ==> did[0] == Arrive(pkt) && Going(did[1..])
      ensures ret == 1 <==> log.accepted == old(log.accepted) + [pkt]
      ensures ret == 0 || ret == 1
      ensures dropIt ==> ret == 0 && log.dropped == old(log.dropped) + [pkt]
      ensures ret == 0 && !dropIt ==> (pkt !in dir || !needsIo) && At(Idle) == old(At(Idle))
    {
      hide Inv, Runs, TakesFirst, Waits, ValidQueue;
      ret, dropIt, did := 0, false, [];
      if pkt !in dir || !needsIo {
        ContinuesItself(dir, At(Idle));
        return;
      }
      ret, did := PacketProcessIo(pkt, dir[pkt]);
      if ret == MARK_PACKET_FOR_DROP {
        dropIt := true;
        ret := 0;
      }
    }

    // get_first_pkt_from_pre_io_wait_queue. The flow entry is looked up from the packet at the head.
    method GetFirstPkt(ghost pc: Pc) returns (pkt: Option<Packet>, flow: Option<nat>)
      requires Inv(dir, At(pc)) && pc.Got? && pc.job.Callback?
      modifies this`waitListCount, this`log, flowPkts
      ensures old(waitListCount) == 0 ==> pkt.None? && At(pc) == old(At(pc))
      ensures old(waitListCount) != 0 ==>
                var f := FirstWaiting(old(flowPkts[..]), 0);
                && f < FLOWS && ValidQueue(old(At(pc)).queue) && |old(log.signals)| == FLOWS
                && flow == Some(f) && pkt.Some? && pkt == Removed(old(flowPkts[f])).pkt
                && At(pc) == Dequeue(old(At(pc)), f)
    {
      hide Inv, Dequeue, ValidQueue, QueueOk, Contents, Removed, FirstWaiting;
      pkt, flow := None, None;
      if waitListCount == 0 {
        return;
      }
      InvGives(dir, At(pc));
      FirstHead(dir, At(pc));
      for i := 0 to FLOWS
        invariant FirstWaiting(flowPkts[..], 0) == FirstWaiting(flowPkts[..], i)
        invariant At(pc) == old(At(pc))
      {
        NextWaiting(flowPkts[..], i);
        if flowPkts[i].count != 0 {
          var head := flowPkts[i].slots[flowPkts[i].readHead];
          if head.Some? && head.value in dir {
            flow := Some(dir[head.value]);
            pkt := GetNextPkt(dir[head.value], pc);
          }
          return;
        }
      }
      assert false;
    }

    // explicit_callback_function: packets are taken from the queue as long as there are free buffers.
    // It returns 0 only after a scan that found no free buffer, and 1 only if nothing waits any more.
    method ExplicitCallback() returns (ret: int, ghost did: seq<Action>)
      requires Inv(dir, At(Idle))
      modifies this`waitListCount, this`inFlight, this`log, flowPkts, bufs
      ensures Runs(dir, old(At(Idle)), did, At(Idle)) && Inv(dir, At(Idle))
      ensures did != [] && did[0] == StartCallback && Going(did[1..])
      ensures ret == 0 || (ret == 1 && waitListCount == 0)
      ensures ret == 0 ==> did[|did| - 1] == GiveUp
      ensures ret == 0 ==>
                forall b | 0 <= b < bufs.Length :: bufs[b].state == FREE ==> Complete(b) in LastScan(did)
      ensures ValidQueue(old(At(Idle)).queue) && ValidQueue(At(Idle).queue)
      ensures log.submitted + Waiting(At(Idle).queue) == old(log.submitted + Waiting(At(Idle).queue))
      ensures Least(Free(old(bufs[..]), 0), |Waiting(old(At(Idle)).queue)|) <= |log.submitted| - |old(log.submitted)|
              <= Free(old(bufs[..]), 0) + Freed(did)
      ensures log.arrived == old(log.arrived) && log.accepted == old(log.accepted) && log.dropped == old(log.dropped)
    {
      hide Inv, Runs, Continues, Going, Enabled, Step, Dequeue, ValidQueue, QueueOk, Contents, Removed, FirstWaiting;
      hide Waiting;
      ghost var at0 := At(Idle);
      StartCallbackIs(dir, at0);
      OneStep(dir, at0, StartCallback);
      ghost var start := At(Scan(Callback, 0, {}));
      assert start == Step(dir, at0, StartCallback);
      ghost var rest: seq<Action> := [];
      ContinuesItself(dir, start);
      WaitingIsKnown(dir, start);
      while true
        invariant Continues(dir, start, rest, At(Scan(Callback, 0, {}))) && Inv(dir, At(Scan(Callback, 0, {})))
        invariant log.arrived == old(log.arrived)
        invariant log.accepted == old(log.accepted) && log.dropped == old(log.dropped)
        invariant ValidQueue(At(Idle).queue)
        decreases |Waiting(At(Idle).queue)|
      {
        ghost var again := At(Scan(Callback, 0, {}));
        var pbuf, pc, scan := GetAioBuffer(Callback, Scan(Callback, 0, {}));
        ghost var at1 := At(pc);
        ContinuesOn(dir, start, rest, again, scan, at1);
        if pbuf.None? {
          GiveUpIs(dir, at1);
          OneStep(dir, at1, GiveUp);
          assert At(Idle) == Step(dir, at1, GiveUp);
          ContinuesOn(dir, start, rest + scan, at1, [GiveUp], At(Idle));
          did := [StartCallback] + (rest + scan + [GiveUp]);
          assert did == ([StartCallback] + rest) + (scan + [GiveUp]);
          forall b | 0 <= b < bufs.Length && bufs[b].state == FREE
            ensures Complete(b) in LastScan(did)
          {
            ScanIsLast([StartCallback] + rest, scan + [GiveUp], b);
          }
          CallOf(dir, at0, StartCallback, start, rest + scan + [GiveUp], At(Idle));
          CallbackServes(dir, at0, did, At(Idle));
          return 0, did;
        }
        var b := pbuf.value;
        CallbackChoiceIs(dir, at1);
        OneStep(dir, at1, Choose);
        var pkt, flow := GetFirstPkt(pc);
        if pkt.None? || flow.None? {
          assert At(Idle) == Step(dir, at1, Choose);
          ContinuesOn(dir, start, rest + scan, at1, [Choose], At(Idle));
          did := [StartCallback] + (rest + scan + [Choose]);
          CallOf(dir, at0, StartCallback, start, rest + scan + [Choose], At(Idle));
          CallbackServes(dir, at0, did, At(Idle));
          return 1, did;
        }
        FirstIsTaken(dir, at1);
        bufs[b] := bufs[b].(pkt := pkt);
        assert bufs[..] == at1.bufs[b := at1.bufs[b].(pkt := pkt)];
        ghost var at2 := At(Submit(Callback, b));
        assert at2 == Step(dir, at1, Choose);
        ContinuesOn(dir, start, rest + scan, at1, [Choose], at2);
        var submitted, more := ReadAioBuffer(b, Callback);
        rest := rest + scan + [Choose];
        ContinuesOn(dir, start, rest, at2, more, At(Scan(Callback, 0, {})));
        rest := rest + more;
      }
    }
  }
}
