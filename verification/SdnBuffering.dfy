/**
 Packets of a flow that wait for the controller (`examples/flow_table/sdn.c`): one list and one
 question for each flow, until a FLOW_MOD for its buffer id comes.
 */
module SdnBuffering {

  // What a list holds, and whether the controller has been asked about it.
  datatype Held<P> = Held(pkts: seq<P>, flag: bool)

  function Nothing<P>(): Held<P> { Held([], false) }

  function Added<P>(h: Held<P>, pkt: P): Held<P> { h.(pkts := h.pkts + [pkt]) }

  function Asked<P>(h: Held<P>): Held<P> { h.(flag := true) }

  // Entries of the packet buffer table.
  const IDS := 1024

  // What has happened so far: a packet taken from the ring for a flow, a PACKET_IN sent, the list
  // of a flow returned.
  datatype Event<K, P> =
    | Arrived(key: K, id: nat, pkt: P)
    | PacketIn(xid: nat, asked: nat)
    | Released(freed: nat, pkts: seq<P>)

  // The switch as far as buffering goes: the lists, the ids that the flows have in the hash table,
  // the next transaction id, and the history. `exited` is set when the table had no room.
  datatype Switch<!K, P> =
    Switch(lists: seq<Held<P>>, ids: map<K, nat>, xid: nat, log: seq<Event<K, P>>, exited: bool)

  function Initial<K, P>(): Switch<K, P> {
    Switch(seq(IDS, _ => Nothing()), map[], 1, [], false)
  }

  datatype Action<K, P> =
    // A packet of the flow `key` comes off the ring; a flow that is new gets `slot`, if there is one.
    | Packet(key: K, pkt: P, slot: nat, room: bool)
    // A FLOW_MOD for a buffer id.
    | FlowMod(id: nat)

  // The hash table gives a new key an index of its own. Buffer ids in a FLOW_MOD are in the table.
  predicate Enabled<K, P>(s: Switch<K, P>, a: Action<K, P>) {
    |s.lists| == IDS && !s.exited &&
    match a
    case Packet(key, _, slot, room) =>
      if key in s.ids then s.ids[key] < IDS else room ==> slot < IDS && slot !in s.ids.Values
    case FlowMod(id) => id < IDS
  }

  function TakePacket<K, P>(s: Switch<K, P>, key: K, pkt: P, id: nat): Switch<K, P>
    requires id < |s.lists|
  {
    var added := Added(s.lists[id], pkt);
    var s1 := s.(lists := s.lists[id := added], ids := s.ids[key := id], log := s.log + [Arrived(key, id, pkt)]);
    if added.flag then s1
    else
      s1.(lists := s1.lists[id := Asked(added)], xid := s1.xid + 1, log := s1.log + [PacketIn(s1.xid, id)])
  }

  function Flush<K, P>(s: Switch<K, P>, id: nat): Switch<K, P>
    requires id < |s.lists|
  {
    s.(lists := s.lists[id := Nothing()], log := s.log + [Released(id, s.lists[id].pkts)])
  }

  function Step<K, P>(s: Switch<K, P>, a: Action<K, P>): Switch<K, P>
    requires Enabled(s, a)
  {
    match a
    case Packet(key, pkt, slot, room) =>
      if key in s.ids then TakePacket(s, key, pkt, s.ids[key])
      else if room then TakePacket(s, key, pkt, slot)
      else s.(exited := true)
    case FlowMod(id) => Flush(s, id)
  }

  // ---- Runs ----

  ghost predicate Reaches<K(!new), P(!new)>(s: Switch<K, P>, actions: seq<Action<K, P>>, t: Switch<K, P>)
    decreases |actions|
  {
    if actions == [] then t == s
    else Enabled(s, actions[0]) && Reaches(Step(s, actions[0]), actions[1..], t)
  }

  // ---- What the history says of one buffer id ----

  function Questions<K, P>(log: seq<Event<K, P>>, id: nat): nat {
    if log == [] then 0
    else
      var e := log[|log| - 1];
      Questions(log[..|log| - 1], id) + if e.PacketIn? && e.asked == id then 1 else 0
  }

  function AllQuestions<K, P>(log: seq<Event<K, P>>): nat {
    if log == [] then 0
    else AllQuestions(log[..|log| - 1]) + if log[|log| - 1].PacketIn? then 1 else 0
  }

  // Flushes that had something to return.
  function Answers<K, P>(log: seq<Event<K, P>>, id: nat): nat {
    if log == [] then 0
    else
      var e := log[|log| - 1];
      Answers(log[..|log| - 1], id) + if e.Released? && e.freed == id && e.pkts != [] then 1 else 0
  }

  function ArrivedAt<K, P>(log: seq<Event<K, P>>, id: nat): seq<P> {
    if log == [] then []
    else
      var e := log[|log| - 1];
      ArrivedAt(log[..|log| - 1], id) + if e.Arrived? && e.id == id then [e.pkt] else []
  }

  function ReturnedFrom<K, P>(log: seq<Event<K, P>>, id: nat): seq<P> {
    if log == [] then []
    else
      var e := log[|log| - 1];
      ReturnedFrom(log[..|log| - 1], id) + if e.Released? && e.freed == id then e.pkts else []
  }

  // ---- The invariant ----

  ghost predicate ListOk<K, P>(s: Switch<K, P>, id: nat)
    requires id < |s.lists|
  {
    var h := s.lists[id];
    && (h.flag <==> h.pkts != [])
    && Questions(s.log, id) == Answers(s.log, id) + (if h.flag then 1 else 0)
    && ArrivedAt(s.log, id) == ReturnedFrom(s.log, id) + h.pkts
  }

  // Every question has a transaction id of its own: the next one is one more than all before.
  ghost predicate Numbered<K, P>(log: seq<Event<K, P>>) {
    forall i | 0 <= i < |log| && log[i].PacketIn? :: log[i].xid == 1 + AllQuestions(log[..i])
  }

  // A buffer id belongs to one flow for ever.
  ghost predicate IdsOk<K(!new), P(!new)>(s: Switch<K, P>) {
    && (forall k | k in s.ids :: s.ids[k] < IDS)
    && (forall k, l | k in s.ids && l in s.ids && s.ids[k] == s.ids[l] :: k == l)
    && (forall e | e in s.log && e.Arrived? :: e.key in s.ids && s.ids[e.key] == e.id)
  }

  ghost predicate Inv<K(!new), P(!new)>(s: Switch<K, P>) {
    && |s.lists| == IDS
    && (forall id | 0 <= id < IDS :: ListOk(s, id))
    && s.xid == 1 + AllQuestions(s.log) && Numbered(s.log)
    && IdsOk(s)
  }

  lemma OneMore<K, P>(log: seq<Event<K, P>>, e: Event<K, P>, id: nat)
    ensures var all := log + [e];
            && Questions(all, id) == Questions(log, id) + (if e.PacketIn? && e.asked == id then 1 else 0)
            && Answers(all, id) == Answers(log, id) + (if e.Released? && e.freed == id && e.pkts != [] then 1 else 0)
            && ArrivedAt(all, id) == ArrivedAt(log, id) + (if e.Arrived? && e.id == id then [e.pkt] else [])
            && ReturnedFrom(all, id) == ReturnedFrom(log, id) + (if e.Released? && e.freed == id then e.pkts else [])
            && AllQuestions(all) == AllQuestions(log) + (if e.PacketIn? then 1 else 0)
  {
    assert (log + [e])[..|log|] == log;
  }

  lemma NumberedGrows<K, P>(log: seq<Event<K, P>>, e: Event<K, P>)
    requires Numbered(log) && (e.PacketIn? ==> e.xid == 1 + AllQuestions(log))
    ensures Numbered(log + [e])
  {
    var all := log + [e];
    forall i | 0 <= i < |all| && all[i].PacketIn? ensures all[i].xid == 1 + AllQuestions(all[..i]) {
      assert all[..i] == log[..i];
      assert log[..|log|] == log;
    }
  }

  lemma TakeKeepsList<K, P>(s: Switch<K, P>, key: K, pkt: P, id: nat, at: nat)
    requires id < |s.lists| && at < |s.lists| && ListOk(s, at)
    ensures ListOk(TakePacket(s, key, pkt, id), at)
  {
    hide Questions, Answers, ArrivedAt, ReturnedFrom, AllQuestions;
    var e := Arrived(key, id, pkt);
    OneMore(s.log, e, at);
    OneMore(s.log + [e], PacketIn(s.xid, id), at);
    var t, h := TakePacket(s, key, pkt, id), s.lists[at];
    var a, r := ArrivedAt(s.log, at), ReturnedFrom(s.log, at);
    assert t.log == if s.lists[id].flag then s.log + [e] else s.log + [e] + [PacketIn(s.xid, id)];
    assert r + [] + [] == r + [] == r;
    if at != id {
      assert t.lists[at] == h;
      assert a + [] + [] == a + [] == a;
    } else {
      assert t.lists[at] == Held(h.pkts + [pkt], true);
      assert a + [pkt] + [] == a + [pkt] == r + (h.pkts + [pkt]);
    }
  }

  lemma FlushKeepsList<K, P>(s: Switch<K, P>, id: nat, at: nat)
    requires id < |s.lists| && at < |s.lists| && ListOk(s, at)
    ensures ListOk(Flush(s, id), at)
  {
    OneMore(s.log, Released(id, s.lists[id].pkts), at);
    hide Questions, Answers, ArrivedAt, ReturnedFrom;
  }

  lemma TakeKeepsIds<K(!new), P(!new)>(s: Switch<K, P>, key: K, pkt: P, id: nat)
    requires IdsOk(s) && id < IDS && id < |s.lists|
    requires if key in s.ids then s.ids[key] == id else id !in s.ids.Values
    ensures IdsOk(TakePacket(s, key, pkt, id))
  {
    var t := TakePacket(s, key, pkt, id);
    assert t.ids == s.ids[key := id];
    forall k, l | k in t.ids && l in t.ids && t.ids[k] == t.ids[l] ensures k == l {
      assert k in s.ids ==> s.ids[k] in s.ids.Values;
      assert l in s.ids ==> s.ids[l] in s.ids.Values;
    }
    forall e | e in t.log && e.Arrived? ensures e.key in t.ids && t.ids[e.key] == e.id {
      assert e in s.log || e == Arrived(key, id, pkt);
    }
  }

  lemma TakeKeepsNumbers<K, P>(s: Switch<K, P>, key: K, pkt: P, id: nat)
    requires s.xid == 1 + AllQuestions(s.log) && Numbered(s.log) && id < |s.lists|
    ensures var t := TakePacket(s, key, pkt, id); t.xid == 1 + AllQuestions(t.log) && Numbered(t.log)
  {
    var e := Arrived(key, id, pkt);
    OneMore(s.log, e, 0);
    OneMore(s.log + [e], PacketIn(s.xid, id), 0);
    NumberedGrows(s.log, e);
    NumberedGrows(s.log + [e], PacketIn(s.xid, id));
    hide Numbered, AllQuestions;
  }

  lemma TakeKeepsInv<K(!new), P(!new)>(s: Switch<K, P>, key: K, pkt: P, id: nat)
    requires Inv(s) && id < IDS
    requires if key in s.ids then s.ids[key] == id else id !in s.ids.Values
    ensures Inv(TakePacket(s, key, pkt, id))
  {
    hide ListOk, Numbered, AllQuestions, IdsOk;
    TakeKeepsIds(s, key, pkt, id);
    TakeKeepsNumbers(s, key, pkt, id);
    var t := TakePacket(s, key, pkt, id);
    assert |t.lists| == IDS;
    hide TakePacket;
    forall at | 0 <= at < IDS ensures ListOk(t, at) {
      TakeKeepsList(s, key, pkt, id, at);
    }
  }

  lemma StepKeepsInv<K(!new), P(!new)>(s: Switch<K, P>, a: Action<K, P>)
    requires Inv(s) && Enabled(s, a)
    ensures Inv(Step(s, a))
  {
    match a
    case Packet(key, pkt, slot, room) =>
      if key in s.ids {
        TakeKeepsInv(s, key, pkt, s.ids[key]);
      } else if room {
        TakeKeepsInv(s, key, pkt, slot);
      } else {
        forall id | 0 <= id < IDS ensures ListOk(Step(s, a), id) {
          assert ListOk(s, id);
        }
      }
    case FlowMod(id) =>
      forall at | 0 <= at < IDS ensures ListOk(Flush(s, id), at) {
        FlushKeepsList(s, id, at);
      }
      OneMore(s.log, Released(id, s.lists[id].pkts), 0);
      NumberedGrows(s.log, Released(id, s.lists[id].pkts));
      hide ListOk, Numbered, AllQuestions;
  }

  lemma {:induction false} ReachableInv<K(!new), P(!new)>(s: Switch<K, P>, actions: seq<Action<K, P>>, t: Switch<K, P>)
    requires Inv(s) && Reaches(s, actions, t)
    ensures Inv(t)
    decreases |actions|
  {
    if actions != [] {
      StepKeepsInv(s, actions[0]);
      ReachableInv(Step(s, actions[0]), actions[1..], t);
    }
  }

  lemma InitialInv<K(!new), P(!new)>()
    ensures Inv(Initial<K, P>())
  {}

  // ---- The results ----

  // In every reachable state, for every buffer id: the flag is up exactly when packets wait, the
  // PACKET_INs sent exceed the flushes that returned packets by that flag, and the packets that
  // arrived are those returned and then those waiting, in order.
  lemma OneQuestionForEachWait<K(!new), P(!new)>(actions: seq<Action<K, P>>, s: Switch<K, P>, id: nat)
    requires Reaches(Initial(), actions, s) && id < IDS
    ensures |s.lists| == IDS && (s.lists[id].flag <==> s.lists[id].pkts != [])
    ensures Questions(s.log, id) - Answers(s.log, id) == if s.lists[id].flag then 1 else 0
    ensures ArrivedAt(s.log, id) == ReturnedFrom(s.log, id) + s.lists[id].pkts
  {
    InitialInv<K, P>();
    ReachableInv(Initial(), actions, s);
    assert ListOk(s, id);
  }

  // No two PACKET_INs carry the same transaction id.
  lemma TransactionIdsDiffer<K(!new), P(!new)>(actions: seq<Action<K, P>>, s: Switch<K, P>, i: nat, j: nat)
    requires Reaches(Initial(), actions, s) && i < j < |s.log| && s.log[i].PacketIn? && s.log[j].PacketIn?
    ensures 1 <= s.log[i].xid < s.log[j].xid < s.xid
  {
    InitialInv<K, P>();
    ReachableInv(Initial(), actions, s);
    QuestionsGrow(s.log, i, j);
    QuestionsGrow(s.log, j, |s.log|);
    assert s.log[..|s.log|] == s.log;
  }

  lemma {:induction false} QuestionsGrow<K, P>(log: seq<Event<K, P>>, i: nat, j: nat)
    requires i < j <= |log| && log[i].PacketIn?
    ensures AllQuestions(log[..i]) < AllQuestions(log[..j])
    decreases j
  {
    assert log[..j][..j - 1] == log[..j - 1];
    if i < j - 1 {
      QuestionsGrow(log, i, j - 1);
    }
  }

  // Two packets that went to the same list are of the same flow.
  lemma OneFlowForEachId<K(!new), P(!new)>(actions: seq<Action<K, P>>, s: Switch<K, P>, i: nat, j: nat)
    requires Reaches(Initial(), actions, s) && i < |s.log| && j < |s.log|
    requires s.log[i].Arrived? && s.log[j].Arrived?
    ensures s.log[i].id == s.log[j].id <==> s.log[i].key == s.log[j].key
  {
    InitialInv<K, P>();
    ReachableInv(Initial(), actions, s);
  }
}
