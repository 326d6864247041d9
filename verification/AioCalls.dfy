/**
 What one call of the explicit callback does to the buffers, the rings and the log, in every run of
 AioSystem: how many packets it submits, and which.
 */
module AioCalls {
  import opened Options
  import opened WaitRing
  import opened AioSystem
  import opened AioInvariant
  import opened AioSteps

  // ---- Free buffers ----

  // The number of free buffers from place `from` on.
  ghost function Free(bufs: seq<Buf>, from: nat): nat
    decreases |bufs| - from
  {
    if from >= |bufs| then 0 else (if bufs[from].state == FREE then 1 else 0) + Free(bufs, from + 1)
  }

  lemma {:induction false} FreeUpdate(bufs: seq<Buf>, b: nat, x: Buf, from: nat)
    requires b < |bufs|
    ensures from > b ==> Free(bufs[b := x], from) == Free(bufs, from)
    ensures from <= b ==> Free(bufs[b := x], from) + (if bufs[b].state == FREE then 1 else 0) ==
                          Free(bufs, from) + (if x.state == FREE then 1 else 0)
    decreases |bufs| - from
  {
    if from < |bufs| {
      FreeUpdate(bufs, b, x, from + 1);
    }
  }

  lemma {:induction false} FreeFrom(bufs: seq<Buf>, from: nat, to: nat)
    requires from <= to
    ensures Free(bufs, to) <= Free(bufs, from)
  {
    if from < to {
      FreeFrom(bufs, from, to - 1);
    }
  }

  // ---- Waiting packets ----

  // The packets that wait from flow `from` on: ring after ring, each in its order.
  ghost function Queued(rings: seq<Ring>, from: nat): seq<Packet>
    requires forall f | 0 <= f < |rings| :: ValidRing(rings[f])
    decreases |rings| - from
  {
    if from >= |rings| then [] else Contents(rings[from]) + Queued(rings, from + 1)
  }

  ghost function Waiting(q: Queue): seq<Packet>
    requires ValidQueue(q)
  {
    Queued(q.rings, 0)
  }

  lemma {:induction false} HeadLeavesQueue(rings: seq<Ring>, f: nat, r: Ring, from: nat)
    requires f < |rings| && ValidRing(r) && forall g | 0 <= g < |rings| :: ValidRing(rings[g])
    requires forall g | from <= g < f :: rings[g].count == 0
    requires Contents(rings[f]) != [] && Contents(r) == Contents(rings[f])[1..]
    ensures Queued(rings, from) == (if from <= f then [Contents(rings[f])[0]] else []) + Queued(rings[f := r], from)
    decreases |rings| - from
  {
    hide ValidRing, Contents;
    if from < |rings| {
      HeadLeavesQueue(rings, f, r, from + 1);
      var head, rest := [Contents(rings[f])[0]], Queued(rings[f := r], from + 1);
      assert Queued(rings, from) == Contents(rings[from]) + Queued(rings, from + 1);
      assert Queued(rings[f := r], from) == Contents(rings[f := r][from]) + rest;
      assert from < f ==> Contents(rings[from]) == [];
      hide Queued;
      if from == f {
        HeadOfAll(Contents(rings[f]), rest);
      }
    }
  }

  lemma HeadOfAll(c: seq<Packet>, rest: seq<Packet>)
    requires c != []
    ensures c + rest == [c[0]] + (c[1..] + rest)
  {
  }

  lemma {:induction false} NothingQueued(rings: seq<Ring>, from: nat)
    requires from <= |rings| && forall g | 0 <= g < |rings| :: ValidRing(rings[g])
    ensures Queued(rings, from) == [] <==> FirstWaiting(rings, from) == |rings|
    decreases |rings| - from
  {
    hide ValidRing, Contents;
    if from < |rings| {
      NothingQueued(rings, from + 1);
      assert |Contents(rings[from])| == rings[from].count;
    }
  }

  lemma WaitingIsKnown(dir: Directory, s: Sys)
    requires Inv(dir, s)
    ensures ValidQueue(s.queue)
    ensures s.queue.waitListCount == 0 <==> Waiting(s.queue) == []
  {
    InvGives(dir, s);
    RingsOfOk(dir, s);
    hide Inv, ValidQueue, QueueOk, Queued, FirstWaiting;
    WaitingIffCounted(s.queue);
    NothingQueued(s.queue.rings, 0);
  }

  // The packet that the callback takes is the first that waits.
  lemma FirstIsTaken(dir: Directory, s: Sys)
    requires Inv(dir, s) && s.queue.waitListCount != 0
    ensures ValidQueue(s.queue) && |s.queue.rings| == FLOWS && |s.log.signals| == FLOWS
    ensures FirstWaiting(s.queue.rings, 0) < FLOWS
    ensures var f := FirstWaiting(s.queue.rings, 0);
            var d := Dequeue(s, f);
            && ValidQueue(d.queue) && Removed(s.queue.rings[f]).pkt.Some?
            && Waiting(s.queue) == [Removed(s.queue.rings[f]).pkt.value] + Waiting(d.queue)
            && d == s.(queue := d.queue, log := s.log.(signals := d.log.signals))
  {
    InvGives(dir, s);
    FirstHead(dir, s);
    var f := FirstWaiting(s.queue.rings, 0);
    DequeueEffect(dir, s, f);
    var d := Dequeue(s, f);
    RingsOfOk(dir, s);
    RingsOfOk(dir, d);
    hide Inv, ValidQueue, ValidRing, QueueOk, Contents, Dequeue, Removed, FirstWaiting, Queued;
    HeadLeavesQueue(s.queue.rings, f, d.queue.rings[f], 0);
  }

  // ---- A call of the callback ----

  // The packets that the call has not submitted yet, in the order in which it will.
  ghost function Pending(s: Sys): seq<Packet>
    requires ValidQueue(s.queue) && (s.pc.Submit? ==> s.pc.buf < |s.bufs|)
  {
    (if s.pc.Submit? && s.bufs[s.pc.buf].pkt.Some? then [s.bufs[s.pc.buf].pkt.value] else []) + Waiting(s.queue)
  }

  // The buffers that the call is sure to use if packets wait, and those that it can use.
  ghost function Sure(s: Sys): nat
    requires s.pc.Issued? ==> s.pc.buf < |s.bufs|
  {
    match s.pc
    case Idle => 0
    case Scan(_, next, _) => Free(s.bufs, next)
    case Got(_, _) => 1 + Free(s.bufs, 0)
    case Submit(_, _) => 1 + Free(s.bufs, 0)
    case Issued(_, b) => Free(s.bufs[b := s.bufs[b].(state := SUBMITTED)], 0)
  }

  ghost function Possible(s: Sys): nat {
    if s.pc.Idle? then 0 else Free(s.bufs, 0) + if s.pc.Got? || s.pc.Submit? then 1 else 0
  }

  function Least(a: nat, b: nat): nat { if a <= b then a else b }

  // How many buffers become free by completions and refused requests.
  ghost function Freed(actions: seq<Action>): nat {
    if actions == [] then 0
    else (if actions[0].Complete? || actions[0].Refuse? then 1 else 0) + Freed(actions[1..])
  }

  ghost predicate Serving(s: Sys) { s.pc.Idle? || s.pc.job.Callback? }

  ghost predicate PendingDefined(s: Sys) {
    ValidQueue(s.queue) && (s.pc.Submit? || s.pc.Issued? ==> s.pc.buf < |s.bufs|)
  }

  // What a step of the call leads to.
  ghost predicate Serves(s: Sys, a: Action, s': Sys)
    requires PendingDefined(s)
  {
    && PendingDefined(s') && Serving(s')
    && s'.log.submitted + Pending(s') == s.log.submitted + Pending(s)
    && Least(Sure(s), |Pending(s)|) - Least(Sure(s'), |Pending(s')|) <= |s'.log.submitted| - |s.log.submitted|
    && |s'.log.submitted| - |s.log.submitted| <=
       Possible(s) - Possible(s') + (if a.Complete? || a.Refuse? then 1 else 0)
    && (s.pc.Idle? ==> s'.pc.Idle?)
  }

  lemma LookServes(s: Sys, s': Sys)
    requires PendingDefined(s) && s.pc.Scan? && s.pc.job.Callback? && s.pc.next < |s.bufs|
    requires var i := s.pc.next;
             s' == if s.bufs[i].state == FREE then
                     s.(bufs := s.bufs[i := s.bufs[i].(state := IN_USE)], pc := Got(s.pc.job, i))
                   else s.(pc := s.pc.(next := i + 1))
    ensures Serves(s, Look, s')
  {
    hide ValidQueue, Waiting;
    var i := s.pc.next;
    if s.bufs[i].state == FREE {
      FreeUpdate(s.bufs, i, s'.bufs[i], 0);
      FreeUpdate(s.bufs, i, s'.bufs[i], i + 1);
      FreeFrom(s'.bufs, 0, i + 1);
    }
  }

  lemma ChooseServes(s: Sys, s': Sys, p: Packet)
    requires PendingDefined(s) && s.pc.Got? && s.pc.job.Callback? && s.pc.buf < |s.bufs|
    requires s.bufs[s.pc.buf].state != FREE
    requires ValidQueue(s'.queue) && Waiting(s.queue) == [p] + Waiting(s'.queue)
    requires var b := s.pc.buf;
             s' == s.(queue := s'.queue, log := s.log.(signals := s'.log.signals),
                      bufs := s.bufs[b := s.bufs[b].(pkt := Some(p))], pc := Submit(s.pc.job, b))
    ensures Serves(s, Choose, s')
  {
    hide ValidQueue, Waiting;
    FreeUpdate(s.bufs, s.pc.buf, s'.bufs[s.pc.buf], 0);
    assert Pending(s') == [p] + Waiting(s'.queue) == Pending(s);
  }

  lemma GiveUpServes(s: Sys)
    requires PendingDefined(s) && s.pc.Scan? && s.pc.job.Callback? && s.pc.next == |s.bufs|
    ensures Serves(s, GiveUp, s.(pc := Idle))
  {
    hide ValidQueue, Waiting;
  }

  lemma IssueServes(s: Sys, s': Sys, p: Packet)
    requires PendingDefined(s) && s.pc.Submit? && s.pc.job.Callback?
    requires s.bufs[s.pc.buf].state != FREE && s.bufs[s.pc.buf].pkt == Some(p)
    requires var b := s.pc.buf;
             s' == s.(inFlight := s'.inFlight, log := s.log.(submitted := s.log.submitted + [p]),
                      pc := Issued(s.pc.job, b))
    ensures Serves(s, Issue, s')
  {
    hide ValidQueue, Waiting;
    FreeUpdate(s.bufs, s.pc.buf, s.bufs[s.pc.buf].(state := SUBMITTED), 0);
    assert Pending(s) == [p] + Pending(s');
  }

  lemma RefuseServes(s: Sys, s': Sys, p: Packet)
    requires PendingDefined(s) && s.pc.Submit? && s.pc.job.Callback?
    requires s.bufs[s.pc.buf].state != FREE && s.bufs[s.pc.buf].pkt == Some(p)
    requires s' == s.(bufs := s.bufs[s.pc.buf := Buf(FREE, None)], pc := Scan(Callback, 0, {}),
                      log := Lost(s.log, p))
    ensures Serves(s, Refuse, s')
  {
    hide ValidQueue, Waiting;
    FreeUpdate(s.bufs, s.pc.buf, Buf(FREE, None), 0);
    assert Pending(s) == [p] + Pending(s');
  }

  lemma SetSubmittedServes(s: Sys, s': Sys)
    requires PendingDefined(s) && s.pc.Issued? && s.pc.job.Callback?
    requires var b := s.pc.buf;
             s' == s.(bufs := s.bufs[b := s.bufs[b].(state := SUBMITTED)], pc := Scan(Callback, 0, {}))
    ensures Serves(s, SetSubmitted, s')
  {
    hide ValidQueue, Waiting;
    FreeUpdate(s.bufs, s.pc.buf, s.bufs[s.pc.buf].(state := SUBMITTED), 0);
  }

  lemma CompleteServes(s: Sys, s': Sys, b: nat)
    requires PendingDefined(s) && Serving(s) && b < |s.bufs|
    requires s.pc.Submit? ==> s.pc.buf != b
    requires s' == s.(bufs := s.bufs[b := Buf(FREE, None)], inFlight := s'.inFlight,
                      pc := s'.pc, log := s.log.(returned := s'.log.returned))
    requires if s.pc.Scan? then s'.pc.Scan? && s'.pc == s.pc.(freed := s'.pc.freed) else s'.pc == s.pc
    ensures Serves(s, Complete(b), s')
  {
    hide ValidQueue, Waiting;
    FreeUpdate(s.bufs, b, Buf(FREE, None), 0);
    if s.pc.Scan? {
      FreeUpdate(s.bufs, b, Buf(FREE, None), s.pc.next);
    } else if s.pc.Issued? {
      CompletedBeside(s.bufs, b, s.pc.buf);
    }
  }

  // A completion before `state = BUF_SUBMITTED` gains no buffer if it is of the buffer itself.
  lemma CompletedBeside(bufs: seq<Buf>, b: nat, c: nat)
    requires b < |bufs| && c < |bufs|
    ensures var done := bufs[b := Buf(FREE, None)];
            Free(bufs[c := bufs[c].(state := SUBMITTED)], 0) <= Free(done[c := done[c].(state := SUBMITTED)], 0)
  {
    var done := bufs[b := Buf(FREE, None)];
    FreeUpdate(bufs, b, Buf(FREE, None), 0);
    FreeUpdate(bufs, c, bufs[c].(state := SUBMITTED), 0);
    FreeUpdate(done, c, done[c].(state := SUBMITTED), 0);
  }

  lemma ChoiceServes(dir: Directory, s: Sys)
    requires Inv(dir, s) && s.pc.Got? && s.pc.job.Callback?
    ensures Shaped(dir, s) && Enabled(dir, s, Choose) && PendingDefined(s)
    ensures Serves(s, Choose, Step(dir, s, Choose))
  {
    WaitingIsKnown(dir, s);
    CallbackChoiceIs(dir, s);
    assert s.pc.buf < |s.bufs| && s.bufs[s.pc.buf].state != FREE;
    hide Inv, ValidQueue, Shaped, Step, FirstWaiting, Removed, Dequeue, Waiting;
    if s.queue.waitListCount != 0 {
      FirstIsTaken(dir, s);
      hide Serves;
      ChooseServes(s, Step(dir, s, Choose), Removed(s.queue.rings[FirstWaiting(s.queue.rings, 0)]).pkt.value);
    }
  }

  lemma StepServes(dir: Directory, s: Sys, a: Action)
    requires Inv(dir, s) && Enabled(dir, s, a) && Serving(s) && !a.Arrive? && !a.StartCallback?
    ensures Shaped(dir, s) && PendingDefined(s)
    ensures Serves(s, a, Step(dir, s, a))
  {
    WaitingIsKnown(dir, s);
    assert s.pc.Submit? ==> s.bufs[s.pc.buf].state != FREE && s.bufs[s.pc.buf].pkt.Some?;
    assert s.pc.Submit? ==> s.pc.buf !in s.inFlight;
    assert s.pc.Issued? ==> s.pc.buf < |s.bufs|;
    hide Inv, Shaped, ValidQueue, Waiting, Step, Serves;
    match a
    case Look => LookIs(dir, s); LookServes(s, Step(dir, s, a));
    case GiveUp => GiveUpIs(dir, s); GiveUpServes(s);
    case Choose => ChoiceServes(dir, s);
    case Issue => IssueIs(dir, s); IssueServes(s, Step(dir, s, a), s.bufs[s.pc.buf].pkt.value);
    case Refuse => RefuseIs(dir, s); RefuseServes(s, Step(dir, s, a), s.bufs[s.pc.buf].pkt.value);
    case SetSubmitted => SetSubmittedIs(dir, s); SetSubmittedServes(s, Step(dir, s, a));
    case Complete(b) => CompletedIs(dir, s, b); ShapedOfInv(dir, s); CompleteServes(s, Step(dir, s, a), b);
  }

  // From `s`, a call with `freed` buffers freed ends in `t`.
  ghost predicate Ends(s: Sys, freed: nat, t: Sys) {
    && PendingDefined(s) && PendingDefined(t)
    && t.log.submitted + Waiting(t.queue) == s.log.submitted + Pending(s)
    && Least(Sure(s), |Pending(s)|) <= |t.log.submitted| - |s.log.submitted| <= Possible(s) + freed
  }

  lemma ServesOn(s: Sys, a: Action, s': Sys, freed: nat, t: Sys)
    requires PendingDefined(s) && Serves(s, a, s') && Ends(s', freed, t)
    ensures Ends(s, freed + (if a.Complete? || a.Refuse? then 1 else 0), t)
  {
    hide Sure, Possible, Pending, Waiting;
  }

  lemma EndsIdle(t: Sys)
    requires ValidQueue(t.queue) && t.pc.Idle?
    ensures Ends(t, 0, t)
  {
    hide ValidQueue, Waiting;
    assert [] + Waiting(t.queue) == Waiting(t.queue);
  }

  lemma {:induction false} RestServes(dir: Directory, s: Sys, did: seq<Action>, t: Sys)
    requires Inv(dir, s) && Serving(s) && Continues(dir, s, did, t) && t.pc.Idle?
    ensures Ends(s, Freed(did), t)
    decreases |did|
  {
    hide Inv, Shaped, Step, Enabled, Serves, Serving, Ends, PendingDefined, ValidQueue, Waiting;
    if did == [] {
      WaitingIsKnown(dir, t);
      EndsIdle(t);
    } else {
      var s' := Step(dir, s, did[0]);
      assert did[0] in did && forall a | a in did[1..] :: a in did;
      StepServes(dir, s, did[0]);
      StepKeepsInv(dir, s, did[0]);
      StillServing(s, did[0], s');
      RestServes(dir, s', did[1..], t);
      ServesOn(s, did[0], s', Freed(did[1..]), t);
    }
  }

  lemma StillServing(s: Sys, a: Action, s': Sys)
    requires PendingDefined(s) && Serves(s, a, s')
    ensures Serving(s')
  {
  }

  // A whole call of the callback, in every run: the waiting packets are submitted in the order of
  // the flows, each flow in its order. They are at least as many as there are free buffers, unless
  // fewer wait, and at most the free buffers and those that become free during the call.
  lemma CallbackServes(dir: Directory, s: Sys, did: seq<Action>, t: Sys)
    requires Inv(dir, s) && s.pc.Idle? && Runs(dir, s, did, t) && t.pc.Idle?
    requires did != [] && did[0].StartCallback? && Going(did[1..])
    ensures ValidQueue(s.queue) && ValidQueue(t.queue)
    ensures t.log.submitted + Waiting(t.queue) == s.log.submitted + Waiting(s.queue)
    ensures var served := |t.log.submitted| - |s.log.submitted|;
            Least(Free(s.bufs, 0), |Waiting(s.queue)|) <= served <= Free(s.bufs, 0) + Freed(did)
    ensures Freed(did) == 0 ==>
              |t.log.submitted| - |s.log.submitted| == Least(Free(s.bufs, 0), |Waiting(s.queue)|)
  {
    WaitingIsKnown(dir, s);
    StartCallbackIs(dir, s);
    OneStep(dir, s, StartCallback);
    var s1 := Step(dir, s, StartCallback);
    assert Pending(s1) == Waiting(s.queue);
    hide Inv, ValidQueue, Waiting, Shaped, Step, Enabled;
    RestServes(dir, s1, did[1..], t);
    assert |t.log.submitted + Waiting(t.queue)| == |s.log.submitted + Waiting(s.queue)|;
  }

  // ---- The last scan of the pool ----

  // The end of a run from where it last started to look at the buffers.
  ghost function LastScan(actions: seq<Action>): seq<Action> {
    if actions == [] then []
    else
      var before, last := actions[..|actions| - 1], actions[|actions| - 1];
      if last.Look? || last.GiveUp? || last.Complete? then LastScan(before) + [last] else []
  }

  lemma {:induction false} ScanIsLast(before: seq<Action>, scan: seq<Action>, b: nat)
    requires forall a | a in scan :: a.Look? || a.GiveUp? || a.Complete?
    requires Complete(b) in scan
    ensures Complete(b) in LastScan(before + scan)
  {
    var n := |scan| - 1;
    assert (before + scan)[..|before| + n] == before + scan[..n];
    assert scan == scan[..n] + [scan[n]];
    if scan[n] != Complete(b) {
      ScanIsLast(before, scan[..n], b);
    }
  }

  // ---- A call of the packet handler ----

  // The packet goes to the end of its ring, and the first of the ring is submitted.
  ghost predicate TakesFirst(s: Sys, f: nat, p: Packet, t: Sys)
    requires ValidQueue(s.queue) && ValidQueue(t.queue) && f < FLOWS
  {
    var all := Contents(s.queue.rings[f]) + [p];
    && t.log.submitted == s.log.submitted + [all[0]] && Contents(t.queue.rings[f]) == all[1..]
    && t.log.dropped == s.log.dropped
    && forall g | 0 <= g < FLOWS && g != f :: t.queue.rings[g] == s.queue.rings[g]
  }

  // Nothing is submitted, and the packet goes to the end of its ring if that has room.
  ghost predicate Waits(s: Sys, f: nat, p: Packet, t: Sys)
    requires ValidQueue(s.queue) && ValidQueue(t.queue) && f < FLOWS
  {
    var room := s.queue.rings[f].count < 2047;
    && t.log.submitted == s.log.submitted
    && Contents(t.queue.rings[f]) == Contents(s.queue.rings[f]) + (if room then [p] else [])
    && t.log.dropped == s.log.dropped + (if room then [] else [p])
    && forall g | 0 <= g < FLOWS && g != f :: t.queue.rings[g] == s.queue.rings[g]
  }

  // If nothing of the flow waits, the packet itself is the first.
  lemma DirectTakesFirst(dir: Directory, s: Sys, f: nat, p: Packet, t: Sys)
    requires QueueOk(dir, s) && f < FLOWS && s.queue.rings[f].writeHead == s.queue.rings[f].readHead
    requires t.queue == s.queue && t.log.submitted == s.log.submitted + [p] && t.log.dropped == s.log.dropped
    ensures ValidQueue(s.queue) && TakesFirst(s, f, p, t)
  {
    RingsOfOk(dir, s);
    EmptyIff(s.queue.rings[f]);
    hide ValidQueue, ValidRing, QueueOk;
    assert Contents(s.queue.rings[f]) == [];
    hide Contents;
    assert [] + [p] == [p];
  }

  lemma QueuedTakesFirst(dir: Directory, s: Sys, f: nat, p: Packet, t: Sys)
    requires QueueOk(dir, s) && f < FLOWS && p in dir && dir[p] == f
    requires s.queue.rings[f].writeHead != s.queue.rings[f].readHead
    requires ValidQueue(Dequeue(s, f).queue) && |Dequeue(s, f).log.signals| == FLOWS
    requires Removed(s.queue.rings[f]).pkt.Some?
    requires t.queue == Enqueue(Dequeue(s, f), f, p).queue && t.log.dropped == s.log.dropped
    requires t.log.submitted == s.log.submitted + [Removed(s.queue.rings[f]).pkt.value]
    ensures ValidQueue(s.queue) && ValidQueue(t.queue) && TakesFirst(s, f, p, t)
  {
    RingsOfOk(dir, s);
    EmptyIff(s.queue.rings[f]);
    CountIsLength(s.queue.rings[f]);
    hide ValidQueue, ValidRing, Contents, QueueOk, Alternating, Enqueue, Dequeue, Removed, Full;
    DequeueEffect(dir, s, f);
    RoomAfterDequeue(dir, s, f);
    var d := Dequeue(s, f);
    RingsOfOk(dir, d);
    EnqueueEffect(dir, d, f, p);
    RingsOfOk(dir, Enqueue(d, f, p));
    var c := Contents(s.queue.rings[f]);
    assert (c + [p])[0] == c[0] && (c + [p])[1..] == c[1..] + [p];
  }

  lemma EnqueuedWaits(dir: Directory, s: Sys, f: nat, p: Packet, t: Sys)
    requires QueueOk(dir, s) && f < FLOWS && p in dir && dir[p] == f
    requires t.queue == Enqueue(s, f, p).queue && t.log == Enqueue(s, f, p).log
    ensures ValidQueue(s.queue) && ValidQueue(t.queue) && Waits(s, f, p, t)
  {
    RingsOfOk(dir, s);
    CountIsDistanceModulo(s.queue.rings[f]);
    hide ValidQueue, ValidRing, Contents, QueueOk, Alternating, Enqueue;
    EnqueueEffect(dir, s, f, p);
    RingsOfOk(dir, Enqueue(s, f, p));
  }
}
