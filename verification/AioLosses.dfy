/**
 What the asynchronous reader loses for good: buffers that are never free again, and packets whose
 request aio_read refuses. Told exactly, for every run of AioSystem.
 */
module AioLosses {
  import opened Options
  import opened WaitRing
  import opened AioSystem
  import opened AioInvariant
  import opened AioSteps

  // A buffer that is not free though no I/O and no step of the NF thread will free it.
  ghost predicate Leaked(s: Sys, b: nat) {
    && b < |s.bufs| && s.bufs[b].state != FREE && b !in s.inFlight
    && !((s.pc.Got? || s.pc.Submit? || s.pc.Issued?) && s.pc.buf == b)
  }

  // The callback has taken the buffer and finds no packet for it, or `state = BUF_SUBMITTED` comes
  // after the completion.
  ghost predicate LosesBuffer(s: Sys, a: Action, b: nat) {
    || (a.Choose? && s.pc.Got? && s.pc.job.Callback? && s.queue.waitListCount == 0 && s.pc.buf == b)
    || (a.SetSubmitted? && s.pc.Issued? && s.pc.buf == b && b !in s.inFlight)
  }

  // A choice keeps the states of the buffers. With nothing to choose it lets go of its own.
  ghost predicate Chosen(s: Sys, s': Sys)
    requires s.pc.Got?
  {
    && s'.pc == (if s.pc.job.Callback? && s.queue.waitListCount == 0 then Idle else Submit(s.pc.job, s.pc.buf))
    && s'.inFlight == s.inFlight && s'.log.lost == s.log.lost && |s'.bufs| == |s.bufs|
    && forall b | 0 <= b < |s.bufs| :: s'.bufs[b].state == s.bufs[b].state
  }

  lemma PacketChooses(dir: Directory, s: Sys)
    requires Inv(dir, s) && s.pc.Got? && s.pc.job.Handle?
    ensures Shaped(dir, s) && Enabled(dir, s, Choose) && Chosen(s, Step(dir, s, Choose))
  {
    hide Inv, ValidQueue, ValidRing, Contents, QueueOk, Added, Removed, QueueAdd, QueueRemove, Full, Step;
    ChooseIs(dir, s);
    assert s.pc.buf < |s.bufs|;
    hide Shaped;
  }

  lemma CallbackChooses(dir: Directory, s: Sys)
    requires Inv(dir, s) && s.pc.Got? && s.pc.job.Callback?
    ensures Shaped(dir, s) && Enabled(dir, s, Choose) && Chosen(s, Step(dir, s, Choose))
  {
    hide Inv, ValidQueue, ValidRing, Contents, QueueOk, Removed, QueueRemove, FirstWaiting, Step;
    CallbackChoiceIs(dir, s);
    assert s.pc.buf < |s.bufs|;
    hide Shaped;
  }

  lemma ChoiceIs(dir: Directory, s: Sys)
    requires Inv(dir, s) && Enabled(dir, s, Choose)
    ensures Shaped(dir, s) && Chosen(s, Step(dir, s, Choose))
    ensures s.pc.buf < |s.bufs| && s.bufs[s.pc.buf].state != FREE && s.pc.buf !in s.inFlight
  {
    ShapedOfInv(dir, s);
    assert s.bufs[s.pc.buf].state != FREE && s.pc.buf !in s.inFlight;
    hide Inv, Shaped, Step, Chosen;
    if s.pc.job.Callback? {
      CallbackChooses(dir, s);
    } else {
      PacketChooses(dir, s);
    }
  }

  lemma ChooseLeaks(dir: Directory, s: Sys, b: nat)
    requires Inv(dir, s) && Enabled(dir, s, Choose)
    ensures Shaped(dir, s)
    ensures Leaked(Step(dir, s, Choose), b) <==> Leaked(s, b) || LosesBuffer(s, Choose, b)
  {
    hide Inv, Shaped, Step;
    ChoiceIs(dir, s);
  }

  // A step loses a buffer in these two ways and in no other, and no step gets one back.
  lemma LeakedByStep(dir: Directory, s: Sys, a: Action, b: nat)
    requires Inv(dir, s) && Enabled(dir, s, a)
    ensures Shaped(dir, s)
    ensures Leaked(Step(dir, s, a), b) <==> Leaked(s, b) || LosesBuffer(s, a, b)
  {
    ShapedOfInv(dir, s);
    if a.Choose? {
      ChooseLeaks(dir, s, b);
      hide *;
    } else {
      OtherwiseLeaks(dir, s, a, b);
      hide *;
    }
    hide *;
  }

  lemma OtherwiseLeaks(dir: Directory, s: Sys, a: Action, b: nat)
    requires Shaped(dir, s) && Enabled(dir, s, a) && !a.Choose?
    ensures Leaked(Step(dir, s, a), b) <==> Leaked(s, b) || LosesBuffer(s, a, b)
  {
    hide ValidQueue, Contents, Added, QueueAdd;
  }

  // Whether some step of the run loses the buffer.
  ghost predicate LosesIn(dir: Directory, s: Sys, actions: seq<Action>, b: nat)
    decreases |actions|
  {
    actions != [] && Shaped(dir, s) && Enabled(dir, s, actions[0]) &&
    (LosesBuffer(s, actions[0], b) || LosesIn(dir, Step(dir, s, actions[0]), actions[1..], b))
  }

  lemma {:induction false} LeakedByRun(dir: Directory, s: Sys, actions: seq<Action>, t: Sys, b: nat)
    requires Inv(dir, s) && Runs(dir, s, actions, t)
    ensures Leaked(t, b) <==> Leaked(s, b) || LosesIn(dir, s, actions, b)
    decreases |actions|
  {
    hide Inv, Shaped, Step, Enabled, Leaked, LosesBuffer;
    if actions != [] {
      LeakedByStep(dir, s, actions[0], b);
      StepKeepsInv(dir, s, actions[0]);
      LeakedByRun(dir, Step(dir, s, actions[0]), actions[1..], t, b);
    }
  }

  // In every run from the start, a buffer is lost if and only if one of the steps loses it.
  lemma LeakedExactly(dir: Directory, n: nat, actions: seq<Action>, t: Sys, b: nat)
    requires Runs(dir, Initial(n), actions, t)
    ensures Leaked(t, b) <==> LosesIn(dir, Initial(n), actions, b)
  {
    hide Inv, Runs, LosesIn;
    InitialInv(dir, n);
    assert !Leaked(Initial(n), b);
    hide *;
    LeakedByRun(dir, Initial(n), actions, t, b);
  }

  // A call of the callback with nothing to do loses the first buffer, if that is free.
  lemma IdleCallbackLeaks(dir: Directory, s: Sys)
    requires Inv(dir, s) && s.pc.Idle? && s.queue.waitListCount == 0 && |s.bufs| > 0 && s.bufs[0].state == FREE
    ensures var t := s.(bufs := s.bufs[0 := s.bufs[0].(state := IN_USE)]);
            Runs(dir, s, [StartCallback, Look, Choose], t) && Leaked(t, 0)
  {
    assert 0 !in s.inFlight;
    hide Inv, Shaped, Runs;
    var s1 := s.(pc := Scan(Callback, 0, {}));
    var s2 := s1.(bufs := s.bufs[0 := s.bufs[0].(state := IN_USE)], pc := Got(Callback, 0));
    var t := s2.(pc := Idle);
    ShapedOfInv(dir, s);
    StepKeepsInv(dir, s, StartCallback);
    assert Step(dir, s, StartCallback) == s1;
    ShapedOfInv(dir, s1);
    StepKeepsInv(dir, s1, Look);
    assert Step(dir, s1, Look) == s2;
    ShapedOfInv(dir, s2);
    assert Step(dir, s2, Choose) == t;
    hide Step;
    ThreeSteps(dir, s, StartCallback, s1, Look, s2, Choose, t);
  }

  lemma ThreeSteps(dir: Directory, s: Sys, a: Action, s1: Sys, b: Action, s2: Sys, c: Action, t: Sys)
    requires Shaped(dir, s) && Enabled(dir, s, a) && Step(dir, s, a) == s1
    requires Shaped(dir, s1) && Enabled(dir, s1, b) && Step(dir, s1, b) == s2
    requires Shaped(dir, s2) && Enabled(dir, s2, c) && Step(dir, s2, c) == t
    ensures Runs(dir, s, [a, b, c], t)
  {
    hide Shaped, Enabled, Step;
    assert [c][1..] == [] && [b, c][1..] == [c] && [a, b, c][1..] == [b, c];
    assert Runs(dir, t, [], t);
    assert Runs(dir, s2, [c], t);
    assert Runs(dir, s1, [b, c], t);
  }

  // ---- Packets ----

  lemma LostByStep(dir: Directory, s: Sys, a: Action)
    requires Inv(dir, s) && Enabled(dir, s, a)
    ensures Shaped(dir, s)
    ensures |Step(dir, s, a).log.lost| == |s.log.lost| + if a.Refuse? then 1 else 0
  {
    ShapedOfInv(dir, s);
    if a.Choose? {
      ChoiceIs(dir, s);
      hide Inv, Shaped, Step;
    } else {
      OtherwiseLost(dir, s, a);
      hide Inv, Shaped, Step;
    }
    hide *;
  }

  lemma OtherwiseLost(dir: Directory, s: Sys, a: Action)
    requires Inv(dir, s) && Enabled(dir, s, a) && !a.Choose?
    ensures Shaped(dir, s)
    ensures |Step(dir, s, a).log.lost| == |s.log.lost| + if a.Refuse? then 1 else 0
  {
    ShapedOfInv(dir, s);
    assert a.Refuse? ==> s.bufs[s.pc.buf].pkt.Some?;
    hide Inv, ValidQueue, Contents, Added, QueueAdd;
  }

  lemma {:induction false} LostByRun(dir: Directory, s: Sys, actions: seq<Action>, t: Sys)
    requires Inv(dir, s) && Runs(dir, s, actions, t)
    ensures |t.log.lost| == |s.log.lost| + multiset(actions)[Refuse]
    decreases |actions|
  {
    hide Inv, Shaped, Step, Enabled;
    if actions != [] {
      LostByStep(dir, s, actions[0]);
      StepKeepsInv(dir, s, actions[0]);
      LostByRun(dir, Step(dir, s, actions[0]), actions[1..], t);
      assert actions == [actions[0]] + actions[1..];
    }
  }

  // In every run from the start, one packet is lost for each refused request.
  lemma LostExactly(dir: Directory, n: nat, actions: seq<Action>, t: Sys)
    requires Runs(dir, Initial(n), actions, t)
    ensures |t.log.lost| == multiset(actions)[Refuse]
    ensures t.log.lost == [] <==> Refuse !in actions
  {
    hide Inv, Runs;
    InitialInv(dir, n);
    assert Initial(n).log.lost == [];
    hide *;
    LostByRun(dir, Initial(n), actions, t);
  }
}
