/**
 The steps of AioSystem one by one, as the methods of the reader take them, and runs put together
 from pieces.
 */
module AioSteps {
  import opened Options
  import opened WaitRing
  import opened AioSystem
  import opened AioInvariant

  // ---- Runs in pieces ----

  lemma {:induction false} RunsAppend(dir: Directory, s: Sys, a: seq<Action>, t: Sys, b: seq<Action>, u: Sys)
    requires Runs(dir, s, a, t) && Runs(dir, t, b, u)
    ensures Runs(dir, s, a + b, u)
    decreases |a|
  {
    hide Shaped, Enabled, Step;
    if |a| == 0 {
      assert a + b == b;
    } else {
      RunsAppend(dir, Step(dir, s, a[0]), a[1..], t, b, u);
      assert (a + b)[0] == a[0] && (a + b)[1..] == a[1..] + b;
    }
  }

  // No call begins.
  ghost predicate Going(actions: seq<Action>) {
    forall a | a in actions :: !a.Arrive? && !a.StartCallback?
  }

  // A run within one call of the NF thread.
  ghost predicate Continues(dir: Directory, s: Sys, did: seq<Action>, t: Sys) {
    Runs(dir, s, did, t) && Going(did)
  }

  lemma ContinuesItself(dir: Directory, s: Sys)
    ensures Continues(dir, s, [], s)
  {
  }

  lemma ContinuesOn(dir: Directory, s: Sys, a: seq<Action>, t: Sys, b: seq<Action>, u: Sys)
    requires Continues(dir, s, a, t) && Continues(dir, t, b, u)
    ensures Continues(dir, s, a + b, u)
  {
    hide Runs;
    RunsAppend(dir, s, a, t, b, u);
  }

  lemma OneStep(dir: Directory, s: Sys, a: Action)
    requires Inv(dir, s) && Enabled(dir, s, a)
    ensures Runs(dir, s, [a], Step(dir, s, a)) && Inv(dir, Step(dir, s, a))
    ensures !a.Arrive? && !a.StartCallback? ==> Continues(dir, s, [a], Step(dir, s, a))
  {
    StepKeepsInv(dir, s, a);
    hide InOrder, Conserved, Accounted, BufsOk, Alternating, Enabled, Step;
    assert Shaped(dir, s);
    hide Inv, Shaped;
    assert Runs(dir, Step(dir, s, a), [], Step(dir, s, a));
    assert [a][1..] == [];
    assert Runs(dir, s, [a], Step(dir, s, a));
  }

  // A call: its first step and what follows.
  lemma CallOf(dir: Directory, s: Sys, a: Action, t: Sys, did: seq<Action>, u: Sys)
    requires Runs(dir, s, [a], t) && Continues(dir, t, did, u)
    ensures Runs(dir, s, [a] + did, u) && Going(([a] + did)[1..])
  {
    hide Runs;
    RunsAppend(dir, s, [a], t, did, u);
    assert ([a] + did)[1..] == did;
  }

  lemma NoSignal(signals: seq<seq<Signal>>, f: nat)
    requires f < |signals|
    ensures Signalled(signals, f, []) == signals
  {
    assert signals[f] + [] == signals[f];
  }

  // ---- Completions ----

  // What a completion makes of the state, and what it makes of it field by field.
  ghost function Completed(dir: Directory, s: Sys, b: nat): Sys
    requires Inv(dir, s) && b in s.inFlight
  {
    ShapedOfInv(dir, s);
    Step(dir, s, Complete(b))
  }

  lemma CompletedIs(dir: Directory, s: Sys, b: nat)
    requires Inv(dir, s) && b in s.inFlight
    ensures b < |s.bufs|
    ensures Completed(dir, s, b) ==
            s.(bufs := s.bufs[b := Buf(FREE, None)], inFlight := s.inFlight - {b},
               pc := if s.pc.Scan? then s.pc.(freed := s.pc.freed + {b}) else s.pc,
               log := if s.bufs[b].pkt.Some? then s.log.(returned := s.log.returned + [s.bufs[b].pkt.value]) else s.log)
  {
    ShapedOfInv(dir, s);
    hide Inv, ValidQueue, Contents;
  }

  // Packets of some flow wait.
  ghost predicate SomeoneWaits(q: Queue) {
    ValidQueue(q) && exists f :: 0 <= f < FLOWS && Contents(q.rings[f]) != []
  }

  lemma WaitingIsCounted(dir: Directory, s: Sys)
    requires Inv(dir, s)
    ensures s.queue.waitListCount != 0 <==> SomeoneWaits(s.queue)
  {
    InvGives(dir, s);
    hide Inv, ValidRing, Contents;
    NonEmptyPositive(s.queue.rings);
    forall f | 0 <= f < FLOWS
      ensures s.queue.rings[f].count == 0 <==> Contents(s.queue.rings[f]) == []
    {
      EmptyIff(s.queue.rings[f]);
    }
  }

  lemma CompleteIsEnabled(dir: Directory, s: Sys, b: nat)
    requires b in s.inFlight
    ensures Enabled(dir, s, Complete(b))
  {
  }

  lemma CompleteKeepsPlace(dir: Directory, s: Sys, b: nat)
    requires Shaped(dir, s) && Enabled(dir, s, Complete(b))
    ensures var s' := Step(dir, s, Complete(b));
            && (if s.pc.Scan? then s'.pc.Scan? && s'.pc.job == s.pc.job && s'.pc.next == s.pc.next else s'.pc == s.pc)
            && s'.queue == s.queue && s'.log.arrived == s.log.arrived
            && s'.log.accepted == s.log.accepted && s'.log.dropped == s.log.dropped
  {
    hide ValidQueue, Contents;
  }

  // ---- The steps, as the methods take them ----

  lemma InvGives(dir: Directory, s: Sys)
    requires Inv(dir, s)
    ensures Shaped(dir, s) && QueueOk(dir, s)
    ensures ValidQueue(s.queue) && |s.queue.rings| == FLOWS && |s.log.signals| == FLOWS
  {
    QueueOfInv(dir, s);
    RingsOfOk(dir, s);
  }

  lemma LookIs(dir: Directory, s: Sys)
    requires Inv(dir, s) && s.pc.Scan? && s.pc.next < |s.bufs|
    ensures Shaped(dir, s) && Enabled(dir, s, Look)
    ensures Step(dir, s, Look) ==
            if s.bufs[s.pc.next].state == FREE then
              s.(bufs := s.bufs[s.pc.next := s.bufs[s.pc.next].(state := IN_USE)], pc := Got(s.pc.job, s.pc.next))
            else s.(pc := s.pc.(next := s.pc.next + 1))
  {
    ShapedOfInv(dir, s);
    hide Inv, ValidQueue, Contents;
  }

  lemma IssueIs(dir: Directory, s: Sys)
    requires Inv(dir, s) && s.pc.Submit?
    ensures Shaped(dir, s) && Enabled(dir, s, Issue)
    ensures Step(dir, s, Issue) ==
            var pkt := s.bufs[s.pc.buf].pkt;
            s.(inFlight := s.inFlight + {s.pc.buf}, pc := Issued(s.pc.job, s.pc.buf),
               log := if pkt.Some? then s.log.(submitted := s.log.submitted + [pkt.value]) else s.log)
  {
    ShapedOfInv(dir, s);
    hide Inv, ValidQueue, Contents;
  }

  // What a failing aio_read makes of the state.
  ghost function Refused(dir: Directory, s: Sys): Sys
    requires Inv(dir, s) && s.pc.Submit?
  {
    ShapedOfInv(dir, s);
    Step(dir, s, Refuse)
  }

  lemma RefuseIs(dir: Directory, s: Sys)
    requires Inv(dir, s) && s.pc.Submit?
    ensures Shaped(dir, s) && Enabled(dir, s, Refuse)
    ensures Step(dir, s, Refuse) ==
            var pkt := s.bufs[s.pc.buf].pkt;
            s.(bufs := s.bufs[s.pc.buf := Buf(FREE, None)], pc := After(s.pc.job),
               log := if pkt.Some? then Lost(s.log, pkt.value) else s.log)
  {
    ShapedOfInv(dir, s);
    hide Inv, ValidQueue, Contents;
  }

  lemma SetSubmittedIs(dir: Directory, s: Sys)
    requires Inv(dir, s) && s.pc.Issued?
    ensures Shaped(dir, s) && Enabled(dir, s, SetSubmitted)
    ensures Step(dir, s, SetSubmitted) ==
            s.(bufs := s.bufs[s.pc.buf := s.bufs[s.pc.buf].(state := SUBMITTED)], pc := After(s.pc.job))
  {
    ShapedOfInv(dir, s);
    hide Inv, ValidQueue, Contents;
  }

  lemma ArriveIs(dir: Directory, s: Sys, p: Packet)
    requires Inv(dir, s) && s.pc.Idle? && p in dir
    ensures Shaped(dir, s) && Enabled(dir, s, Arrive(p))
    ensures Step(dir, s, Arrive(p)) ==
            s.(pc := Scan(Handle(p, dir[p]), 0, {}), log := s.log.(arrived := s.log.arrived + [p]))
  {
    ShapedOfInv(dir, s);
    hide Inv, ValidQueue, Contents;
  }

  lemma StartCallbackIs(dir: Directory, s: Sys)
    requires Inv(dir, s) && s.pc.Idle?
    ensures Shaped(dir, s) && Enabled(dir, s, StartCallback)
    ensures Step(dir, s, StartCallback) == s.(pc := Scan(Callback, 0, {}))
  {
    ShapedOfInv(dir, s);
    hide Inv, ValidQueue, Contents;
  }

  lemma GiveUpIs(dir: Directory, s: Sys)
    requires Inv(dir, s) && s.pc.Scan? && s.pc.next == |s.bufs|
    ensures Shaped(dir, s) && Enabled(dir, s, GiveUp)
    ensures s.pc.job.Callback? ==> Step(dir, s, GiveUp) == s.(pc := Idle)
    ensures s.pc.job.Handle? ==> Step(dir, s, GiveUp) == Enqueue(s, s.pc.job.flow, s.pc.job.pkt).(pc := Idle)
  {
    ShapedOfInv(dir, s);
    hide Inv, ValidQueue, Contents, Enqueue;
  }

  // The return code tells whether the packet was accepted.
  lemma EnqueueCode(dir: Directory, s: Sys, f: nat, p: Packet)
    requires QueueOk(dir, s) && f < FLOWS
    ensures ValidRing(s.queue.rings[f])
    ensures Added(s.queue.rings[f], p).code == if Full(s, f) then 1 else 0
  {
    RingsOfOk(dir, s);
    AddedIs(s.queue.rings[f], p);
    hide ValidRing, Contents, QueueOk, ValidQueue, Added;
  }

  // With a buffer at hand nothing is dropped.
  lemma ChooseIs(dir: Directory, s: Sys)
    requires Inv(dir, s) && s.pc.Got? && s.pc.job.Handle?
    ensures Shaped(dir, s) && QueueOk(dir, s) && Enabled(dir, s, Choose)
    ensures var f, p, b := s.pc.job.flow, s.pc.job.pkt, s.pc.buf;
            if s.queue.rings[f].writeHead != s.queue.rings[f].readHead then
              && Removed(s.queue.rings[f]).pkt.Some?
              && QueueOk(dir, Dequeue(s, f)) && !Full(Dequeue(s, f), f)
              && Step(dir, s, Choose) ==
                 Hold(Enqueue(Dequeue(s, f), f, p), s.pc.job, b, Removed(s.queue.rings[f]).pkt.value)
            else
              Step(dir, s, Choose) == Hold(s.(log := s.log.(accepted := s.log.accepted + [p])), s.pc.job, b, p)
  {
    InvGives(dir, s);
    hide Inv;
    if s.queue.rings[s.pc.job.flow].writeHead != s.queue.rings[s.pc.job.flow].readHead {
      ChooseQueued(dir, s);
    } else {
      ChooseDirect(dir, s);
    }
    hide *;
  }

  lemma ChooseQueued(dir: Directory, s: Sys)
    requires Shaped(dir, s) && QueueOk(dir, s) && s.pc.Got? && s.pc.job.Handle?
    requires s.queue.rings[s.pc.job.flow].writeHead != s.queue.rings[s.pc.job.flow].readHead
    ensures Enabled(dir, s, Choose)
    ensures var f, p, b := s.pc.job.flow, s.pc.job.pkt, s.pc.buf;
            && Removed(s.queue.rings[f]).pkt.Some?
            && QueueOk(dir, Dequeue(s, f)) && !Full(Dequeue(s, f), f)
            && ValidQueue(Dequeue(s, f).queue) && |Dequeue(s, f).log.signals| == FLOWS
            && Step(dir, s, Choose) ==
               Hold(Enqueue(Dequeue(s, f), f, p), s.pc.job, b, Removed(s.queue.rings[f]).pkt.value)
  {
    HeadLeaves(dir, s, s.pc.job.flow);
    hide ValidQueue, Contents, QueueOk, ValidRing, Enqueue, Dequeue, Hold, Removed, Full;
  }

  lemma ChooseDirect(dir: Directory, s: Sys)
    requires Shaped(dir, s) && s.pc.Got? && s.pc.job.Handle?
    requires s.queue.rings[s.pc.job.flow].writeHead == s.queue.rings[s.pc.job.flow].readHead
    ensures Enabled(dir, s, Choose)
    ensures Step(dir, s, Choose) ==
            Hold(s.(log := s.log.(accepted := s.log.accepted + [s.pc.job.pkt])), s.pc.job, s.pc.buf, s.pc.job.pkt)
  {
    hide ValidQueue, Contents, ValidRing, Enqueue, Dequeue, Hold, Removed;
  }

  lemma HeadLeaves(dir: Directory, s: Sys, f: nat)
    requires QueueOk(dir, s) && f < FLOWS && s.queue.rings[f].writeHead != s.queue.rings[f].readHead
    ensures Removed(s.queue.rings[f]).pkt.Some?
    ensures QueueOk(dir, Dequeue(s, f)) && !Full(Dequeue(s, f), f)
    ensures ValidQueue(Dequeue(s, f).queue) && |Dequeue(s, f).log.signals| == FLOWS
  {
    RingsOfOk(dir, s);
    EmptyIff(s.queue.rings[f]);
    CountIsLength(s.queue.rings[f]);
    hide ValidQueue, Contents, QueueOk, ValidRing, Dequeue, Removed, Full;
    DequeueEffect(dir, s, f);
    RoomAfterDequeue(dir, s, f);
    RingsOfOk(dir, Dequeue(s, f));
  }

  // Taking the head and adding the packet, as ProcessWithBuffer does.
  lemma QueuedChoice(dir: Directory, s: Sys, f: nat, p: Packet)
    requires QueueOk(dir, s) && f < FLOWS && p in dir && dir[p] == f
    requires s.queue.rings[f].writeHead != s.queue.rings[f].readHead
    ensures var d := Dequeue(s, f);
            && QueueOk(dir, d) && ValidQueue(d.queue) && |d.log.signals| == FLOWS
            && d.log.arrived == s.log.arrived && d.log.accepted == s.log.accepted && d.log.dropped == s.log.dropped
            && Added(d.queue.rings[f], p).code == 0
            && Enqueue(d, f, p).log.arrived == s.log.arrived
            && Enqueue(d, f, p).log.accepted == s.log.accepted + [p]
            && Enqueue(d, f, p).log.dropped == s.log.dropped
            && Enqueue(d, f, p).log.submitted == s.log.submitted
  {
    RingsOfOk(dir, s);
    EmptyIff(s.queue.rings[f]);
    CountIsLength(s.queue.rings[f]);
    hide ValidQueue, Contents, QueueOk, ValidRing, Alternating, Enqueue, Dequeue, Added, Removed;
    DequeueEffect(dir, s, f);
    RoomAfterDequeue(dir, s, f);
    RingsOfOk(dir, Dequeue(s, f));
    EnqueueEffect(dir, Dequeue(s, f), f, p);
    EnqueueCode(dir, Dequeue(s, f), f, p);
    assert s.log.dropped + [] == s.log.dropped;
  }

  // The head of the first ring that is not empty belongs to that ring.
  lemma FirstHead(dir: Directory, s: Sys)
    requires Inv(dir, s) && s.queue.waitListCount != 0
    ensures |s.queue.rings| == FLOWS && ValidQueue(s.queue)
    ensures var f := FirstWaiting(s.queue.rings, 0);
            && f < FLOWS && ValidRing(s.queue.rings[f]) && s.queue.rings[f].count > 0
            && |s.queue.rings[f].slots| == RING_SIZE + 1 && 0 <= s.queue.rings[f].readHead < RING_SIZE
            && var head := s.queue.rings[f].slots[s.queue.rings[f].readHead];
            && head.Some? && head.value in dir && dir[head.value] == f
            && Removed(s.queue.rings[f]).pkt == head
  {
    InvGives(dir, s);
    RingsOfOk(dir, s);
    WaitingIffCounted(s.queue);
    var f := FirstWaiting(s.queue.rings, 0);
    CountIsDistanceModulo(s.queue.rings[f]);
    HeadHasFlow(dir, s, f);
    HeadOf(s.queue.rings[f]);
    hide Inv, ValidQueue, QueueOk, Contents;
  }

  lemma HeadOf(r: Ring)
    requires ValidRing(r) && r.count > 0
    ensures r.slots[r.readHead] == Some(Contents(r)[0]) == Removed(r).pkt
  {
    assert SlotAt(r.readHead, 0) == r.readHead;
  }

  lemma NextWaiting(rings: seq<Ring>, i: nat)
    requires i < |rings|
    ensures FirstWaiting(rings, i) == if rings[i].count != 0 then i else FirstWaiting(rings, i + 1)
  {
  }

  lemma CallbackChoiceIs(dir: Directory, s: Sys)
    requires Inv(dir, s) && s.pc.Got? && s.pc.job.Callback?
    ensures Shaped(dir, s) && Enabled(dir, s, Choose)
    ensures s.queue.waitListCount == 0 ==> Step(dir, s, Choose) == s.(pc := Idle)
    ensures s.queue.waitListCount != 0 ==>
              var f := FirstWaiting(s.queue.rings, 0);
              && f < FLOWS && |s.queue.rings| == FLOWS && ValidQueue(s.queue) && |s.log.signals| == FLOWS
              && Removed(s.queue.rings[f]).pkt.Some?
              && Step(dir, s, Choose) == Hold(Dequeue(s, f), Callback, s.pc.buf, Removed(s.queue.rings[f]).pkt.value)
  {
    InvGives(dir, s);
    if s.queue.waitListCount != 0 {
      FirstHead(dir, s);
    }
    hide Inv, ValidQueue, QueueOk, Contents, Dequeue, Hold, Removed, FirstWaiting;
  }
}
