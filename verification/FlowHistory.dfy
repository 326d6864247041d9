/**
 What the switch holds and asks, told by what has happened alone: the packets of a flow that were
 taken since the last FLOW_MOD for its buffer id, and no others.
 */
module FlowHistory {
  import opened Sequences
  import opened SdnBuffering
  import opened OpenFlow
  import opened Datapath

  // A FLOW_MOD for the buffer id.
  ghost predicate Frees<K, P>(h: Happening<K, P>, id: nat) { h.Told? && h.m[1] == 14 && Word(h.m, 64) == id }

  ghost predicate Brings<K, P>(h: Happening<K, P>, key: K) { h.Taken? && h.w.Next? && h.w.key == key }

  // The packets of the flow that were taken since the last FLOW_MOD for the id.
  ghost function HeldSince<K(!new), P(!new)>(hs: seq<Happening<K, P>>, key: K, id: nat): seq<P> {
    if hs == [] then []
    else
      var before := HeldSince(Pop(hs), key, id);
      if Frees(Top(hs), id) then []
      else if Brings(Top(hs), key) then before + [Top(hs).w.pkt]
      else before
  }

  // All packets of the flow that were taken.
  ghost function AllTaken<K(!new), P(!new)>(hs: seq<Happening<K, P>>, key: K): seq<P> {
    if hs == [] then []
    else AllTaken(Pop(hs), key) + if Brings(Top(hs), key) then [Top(hs).w.pkt] else []
  }

  // ---- Runs, told from their ends ----

  lemma {:induction false} RunMore<K, P>(d: Dp<K, P>, hs: seq<Happening<K, P>>, h: Happening<K, P>)
    requires Happens(d, hs + [h])
    ensures Happens(d, hs) && Possible(ReactAll(d, hs), h)
    ensures ReactAll(d, hs + [h]) == React(ReactAll(d, hs), h)
    decreases |hs|
  {
    hide Possible, React;
    if hs == [] {
      assert hs + [h] == [h] && [h][1..] == [];
      assert ReactAll(React(d, h), []) == React(d, h);
    } else {
      assert (hs + [h])[0] == hs[0] && (hs + [h])[1..] == hs[1..] + [h];
      RunMore(React(d, hs[0]), hs[1..], h);
    }
  }

  // ---- The lists ----

  ghost predicate KeyOk<K(!new), P(!new)>(s: Switch<K, P>, hs: seq<Happening<K, P>>, k: K)
    requires |s.lists| == IDS
  {
    && (k in s.ids ==>
          && s.ids[k] < IDS && s.lists[s.ids[k]].pkts == HeldSince(hs, k, s.ids[k])
          && ArrivedAt(s.log, s.ids[k]) == AllTaken(hs, k))
    && (k !in s.ids && !s.exited ==> AllTaken(hs, k) == [])
  }

  ghost predicate Unowned<K(!new), P(!new)>(s: Switch<K, P>, id: nat)
    requires |s.lists| == IDS && id < IDS
  {
    id !in s.ids.Values ==> s.lists[id].pkts == [] && ArrivedAt(s.log, id) == []
  }

  ghost predicate HoldsSince<K(!new), P(!new)>(s: Switch<K, P>, hs: seq<Happening<K, P>>) {
    && |s.lists| == IDS
    && (forall k :: KeyOk(s, hs, k)) && (forall id | 0 <= id < IDS :: Unowned(s, id))
  }

  // A flow of which nothing was taken has nothing waiting.
  lemma {:induction false} NothingTaken<K(!new), P(!new)>(hs: seq<Happening<K, P>>, key: K, id: nat)
    requires AllTaken(hs, key) == []
    ensures HeldSince(hs, key, id) == []
  {
    if hs != [] {
      NothingTaken(Pop(hs), key, id);
    }
  }

  // One happening more.
  lemma OneMoreTold<K(!new), P(!new)>(hs: seq<Happening<K, P>>, m: Request, key: K, id: nat)
    ensures HeldSince(hs + [Told(m)], key, id) == if m[1] == 14 && Word(m, 64) == id then [] else HeldSince(hs, key, id)
    ensures AllTaken(hs + [Told(m)], key) == AllTaken(hs, key)
  {
    var h: Happening<K, P> := Told(m);
    assert Pop(hs + [h]) == hs && Top(hs + [h]) == h;
    hide Word;
  }

  lemma OneMoreTaken<K(!new), P(!new)>(hs: seq<Happening<K, P>>, w: Waiting<K, P>, key: K, id: nat)
    requires w.Next?
    ensures HeldSince(hs + [Taken(w)], key, id) == HeldSince(hs, key, id) + (if w.key == key then [w.pkt] else [])
    ensures AllTaken(hs + [Taken(w)], key) == AllTaken(hs, key) + (if w.key == key then [w.pkt] else [])
  {
    assert Pop(hs + [Taken(w)]) == hs && Top(hs + [Taken(w)]) == Taken(w);
  }

  // A message adds no packet to any list.
  lemma ToldLog<K(!new), P(!new)>(d: Dp<K, P>, m: Request, id: nat)
    requires Possible(d, Told(m)) && id < IDS
    ensures var t := React(d, Told(m)).switch;
            && t.ids == d.switch.ids && |t.lists| == IDS && t.exited == d.switch.exited
            && ArrivedAt(t.log, id) == ArrivedAt(d.switch.log, id)
            && t.lists[id].pkts == if m[1] == 14 && Word(m, 64) == id then [] else d.switch.lists[id].pkts
  {
    if Flushes(m) {
      OneMore(d.switch.log, Released(Word(m, 64), d.switch.lists[Word(m, 64)].pkts), id);
    }
    hide ArrivedAt, Word;
  }

  lemma ToldKeeps<K(!new), P(!new)>(d: Dp<K, P>, hs: seq<Happening<K, P>>, m: Request)
    requires Possible(d, Told(m)) && HoldsSince(d.switch, hs)
    ensures HoldsSince(React(d, Told(m)).switch, hs + [Told(m)])
  {
    var h: Happening<K, P> := Told(m);
    var t := React(d, h).switch;
    hide React, Possible, ArrivedAt, Word, HeldSince, AllTaken;
    ToldLog(d, m, 0);
    forall k
      ensures KeyOk(t, hs + [h], k)
    {
      assert KeyOk(d.switch, hs, k);
      OneMoreTold(hs, m, k, if k in t.ids then t.ids[k] else 0);
      if k in t.ids {
        ToldLog(d, m, t.ids[k]);
      }
    }
    forall id | 0 <= id < IDS
      ensures Unowned(t, id)
    {
      assert Unowned(d.switch, id);
      ToldLog(d, m, id);
    }
    hide KeyOk, Unowned;
  }

  lemma ExitKeeps<K(!new), P(!new)>(d: Dp<K, P>, hs: seq<Happening<K, P>>, w: Waiting<K, P>)
    requires Possible(d, Taken(w)) && HoldsSince(d.switch, hs) && w.key !in d.switch.ids && !w.room
    ensures HoldsSince(React(d, Taken(w)).switch, hs + [Taken(w)])
  {
    var t := React(d, Taken(w)).switch;
    assert t == d.switch.(exited := true);
    hide React, Possible, ArrivedAt, HeldSince, AllTaken;
    forall k
      ensures KeyOk(t, hs + [Taken(w)], k)
    {
      assert KeyOk(d.switch, hs, k);
      if k in t.ids {
        OneMoreTaken(hs, w, k, t.ids[k]);
        assert HeldSince(hs, k, t.ids[k]) + [] == HeldSince(hs, k, t.ids[k]) && AllTaken(hs, k) + [] == AllTaken(hs, k);
      }
    }
    forall id | 0 <= id < IDS
      ensures Unowned(t, id)
    {
      assert Unowned(d.switch, id);
    }
    hide KeyOk, Unowned;
  }

  // What taking a packet does to the lists and to the history of arrivals.
  lemma TakenIs<K(!new), P(!new)>(d: Dp<K, P>, w: Waiting<K, P>, other: nat)
    requires Possible(d, Taken(w)) && (w.key in d.switch.ids || w.room) && other < IDS
    ensures var s, t, id := d.switch, React(d, Taken(w)).switch, IdOf(d.switch, w);
            && id < IDS && |t.lists| == IDS && t.ids == s.ids[w.key := id] && t.exited == s.exited
            && t.lists[other].pkts == s.lists[other].pkts + (if other == id then [w.pkt] else [])
            && ArrivedAt(t.log, other) == ArrivedAt(s.log, other) + (if other == id then [w.pkt] else [])
  {
    TakingIs(d.switch, w);
    hide Step, Question, PacketInBytes, FrameOk, TakePacket, ArrivedAt;
    ArrivedMore(d.switch, w, other);
    ListMore(d.switch, w.key, w.pkt, IdOf(d.switch, w), other);
  }

  lemma ListMore<K, P>(s: Switch<K, P>, key: K, pkt: P, id: nat, other: nat)
    requires id < |s.lists| && other < |s.lists|
    ensures var t := TakePacket(s, key, pkt, id);
            && |t.lists| == |s.lists| && t.ids == s.ids[key := id] && t.exited == s.exited
            && t.lists[other].pkts == s.lists[other].pkts + (if other == id then [pkt] else [])
  {
    assert s.lists[other].pkts + [] == s.lists[other].pkts;
  }

  lemma TakenKeeps<K(!new), P(!new)>(d: Dp<K, P>, hs: seq<Happening<K, P>>, w: Waiting<K, P>)
    requires Possible(d, Taken(w)) && HoldsSince(d.switch, hs) && IdsOk(d.switch)
    requires w.key in d.switch.ids || w.room
    ensures HoldsSince(React(d, Taken(w)).switch, hs + [Taken(w)])
  {
    var h: Happening<K, P> := Taken(w);
    var s, t, id := d.switch, React(d, h).switch, IdOf(d.switch, w);
    OwnSlot(s, w);
    TakenIs(d, w, 0);
    hide React, Possible, ArrivedAt, IdsOk, Enabled;
    forall k
      ensures KeyOk(t, hs + [h], k)
    {
      TakenKeepsKey(d, hs, w, k);
    }
    forall other | 0 <= other < IDS
      ensures Unowned(t, other)
    {
      TakenKeepsUnowned(d, hs, w, other);
    }
    hide KeyOk, Unowned;
  }

  // The list of the packet is that of its flow and of no other.
  lemma OwnSlot<K(!new), P(!new)>(s: Switch<K, P>, w: Waiting<K, P>)
    requires w.Next? && IdsOk(s) && Enabled(s, Arrival(w)) && (w.key in s.ids || w.room)
    ensures forall k | k in s.ids && k != w.key :: s.ids[k] != IdOf(s, w)
    ensures w.key !in s.ids ==> IdOf(s, w) !in s.ids.Values
  {
    forall k | k in s.ids && k != w.key
      ensures s.ids[k] != IdOf(s, w)
    {
      assert s.ids[k] in s.ids.Values;
    }
  }

  lemma TakenKeepsKey<K(!new), P(!new)>(d: Dp<K, P>, hs: seq<Happening<K, P>>, w: Waiting<K, P>, k: K)
    requires Possible(d, Taken(w)) && HoldsSince(d.switch, hs) && IdsOk(d.switch)
    requires w.key in d.switch.ids || w.room
    ensures |React(d, Taken(w)).switch.lists| == IDS && KeyOk(React(d, Taken(w)).switch, hs + [Taken(w)], k)
  {
    var s, t, id := d.switch, React(d, Taken(w)).switch, IdOf(d.switch, w);
    OwnSlot(s, w);
    hide React, ArrivedAt, IdsOk, Enabled, HeldSince, AllTaken;
    TakenIs(d, w, id);
    assert KeyOk(s, hs, k) && (w.key !in s.ids ==> Unowned(s, id)) && !s.exited;
    hide HoldsSince, Possible;
    if k == w.key {
      OneMoreTaken(hs, w, k, id);
      if k !in s.ids {
        NothingTaken(hs, k, id);
      }
    } else {
      OneMoreTaken(hs, w, k, if k in s.ids then s.ids[k] else 0);
      if k in s.ids {
        TakenIs(d, w, s.ids[k]);
      } else {
        assert AllTaken(hs, k) + [] == AllTaken(hs, k);
      }
    }
  }

  lemma TakenKeepsUnowned<K(!new), P(!new)>(d: Dp<K, P>, hs: seq<Happening<K, P>>, w: Waiting<K, P>, other: nat)
    requires Possible(d, Taken(w)) && HoldsSince(d.switch, hs) && other < IDS
    requires w.key in d.switch.ids || w.room
    ensures |React(d, Taken(w)).switch.lists| == IDS && Unowned(React(d, Taken(w)).switch, other)
  {
    var s, t, id := d.switch, React(d, Taken(w)).switch, IdOf(d.switch, w);
    TakenIs(d, w, other);
    assert Unowned(s, other);
    hide React, Possible, ArrivedAt, Enabled, HoldsSince;
    if other !in t.ids.Values {
      assert t.ids[w.key] in t.ids.Values;
      forall k | k in s.ids
        ensures s.ids[k] != other
      {
        if k == w.key {
          assert id == s.ids[k];
        } else {
          assert t.ids[k] in t.ids.Values;
        }
      }
    }
  }

  lemma ArrivedMore<K, P>(s: Switch<K, P>, w: Waiting<K, P>, other: nat)
    requires w.Next? && Enabled(s, Arrival(w)) && (w.key in s.ids || w.room) && |s.lists| == IDS
    ensures IdOf(s, w) < IDS
    ensures ArrivedAt(Step(s, Arrival(w)).log, other) ==
            ArrivedAt(s.log, other) + if other == IdOf(s, w) then [w.pkt] else []
  {
    var e := Arrived(w.key, IdOf(s, w), w.pkt);
    OneMore(s.log, e, other);
    OneMore(s.log + [e], PacketIn(s.xid, IdOf(s, w)), other);
    hide ArrivedAt, Questions, Answers, ReturnedFrom, AllQuestions;
  }

  lemma {:induction false} RunHolds<K(!new), P(!new)>(dpid: DatapathId, hs: seq<Happening<K, P>>)
    requires Happens(Start(dpid), hs)
    ensures var s := ReactAll(Start(dpid), hs).switch; HoldsSince(s, hs) && Inv(s)
    decreases |hs|
  {
    if hs == [] {
      InitialInv<K, P>();
    } else {
      var d0 := Start<K, P>(dpid);
      var before, h := Pop(hs), Top(hs);
      assert hs == before + [h];
      RunMore(d0, before, h);
      RunHolds<K, P>(dpid, before);
      EveryRunAsksOnce(dpid, hs, 0);
      var d := ReactAll(d0, before);
      hide HoldsSince, Happens, ReactAll, React;
      assert IdsOk(d.switch);
      match h
      case Told(m) => ToldKeeps(d, before, m);
      case Taken(w) =>
        if w.key in d.switch.ids || w.room {
          TakenKeeps(d, before, w);
        } else {
          ExitKeeps(d, before, w);
        }
    }
  }

  // In every run of the switch from its start: the list of a flow holds exactly the packets that were
  // taken since the last FLOW_MOD for its buffer id, and those and the returned ones are all that
  // were taken, in order. Every flow of which packets were taken has a list.
  lemma ListsOfRun<K(!new), P(!new)>(dpid: DatapathId, hs: seq<Happening<K, P>>, key: K)
    requires Happens(Start(dpid), hs)
    ensures var s := ReactAll(Start(dpid), hs).switch;
            && |s.lists| == IDS
            && (key in s.ids ==>
                  && s.ids[key] < IDS && s.lists[s.ids[key]].pkts == HeldSince(hs, key, s.ids[key])
                  && ReturnedFrom(s.log, s.ids[key]) + HeldSince(hs, key, s.ids[key]) == AllTaken(hs, key))
            && (key !in s.ids && !s.exited ==> AllTaken(hs, key) == [])
  {
    RunHolds<K, P>(dpid, hs);
    var s := ReactAll(Start(dpid), hs).switch;
    assert KeyOk(s, hs, key);
    hide Inv, Happens, ReactAll, ReturnedFrom;
    if key in s.ids {
      EveryRunAsksOnce(dpid, hs, s.ids[key]);
    }
  }

  // Taking a packet asks the controller if and only if nothing of its flow was held.
  lemma AsksWhenNothingHeld<K(!new), P(!new)>(dpid: DatapathId, hs: seq<Happening<K, P>>, w: Waiting<K, P>)
    requires Happens(Start(dpid), hs) && Possible(ReactAll(Start(dpid), hs), Taken(w))
    requires w.key in ReactAll(Start(dpid), hs).switch.ids || w.room
    ensures var d := ReactAll(Start(dpid), hs);
            var id := IdOf(d.switch, w);
            && id < IDS
            && Says(d, Taken(w)) ==
               if HeldSince(hs, w.key, id) == [] then [PacketInBytes(d.switch.xid, id, w.frame)] else []
  {
    RunHolds<K, P>(dpid, hs);
    var s := ReactAll(Start(dpid), hs).switch;
    var id := IdOf(s, w);
    hide Happens, ReactAll, PacketInBytes;
    assert KeyOk(s, hs, w.key) && (w.key !in s.ids ==> Unowned(s, id));
    if w.key !in s.ids {
      NothingTaken(hs, w.key, id);
    }
    assert ListOk(s, id);
  }
}
