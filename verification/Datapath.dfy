/**
 The switch end of the OpenFlow connection (`examples/flow_table/sdn.c`): what each message does,
 what is answered, and the two handlers that move bytes.
 */
module Datapath {
  import opened MsgBuf
  import opened Framing
  import opened SdnBuffering
  import opened PktList
  import opened PktTable
  import opened OpenFlow

  // ---- The switch on values ----

  datatype Dp<!K, P> = Dp(id: DatapathId, ready: bool, config: Config, switch: Switch<K, P>, out: Bytes)

  const HELLO_BYTES := HeaderBytes(HELLO, HEADER, [0, 0, 0, 1])

  // `datapath_init`
  function Start<K, P>(id: DatapathId): Dp<K, P> {
    Dp(id, false, FIRST_CONFIG, Initial(), HELLO_BYTES)
  }

  // The list that a message flushes.
  predicate Flushes(m: Request) { Type(m) == FLOW_MOD && Word(m, BUFFER_ID) != NO_BUFFER }

  function Handle<K, P>(d: Dp<K, P>, m: Request): Dp<K, P>
    requires |d.switch.lists| == IDS
  {
    Dp(d.id,
       d.ready || Type(m) == HELLO || Type(m) == FEATURES_REQUEST,
       NextConfig(d.config, m),
       if Flushes(m) then Flush(d.switch, Word(m, BUFFER_ID)) else d.switch,
       d.out + Concat(Reply(d.id, d.config, m)))
  }

  function HandleAll<K, P>(d: Dp<K, P>, ms: seq<Bytes>): (r: Dp<K, P>)
    requires (forall m | m in ms :: WellFormed(m)) && |d.switch.lists| == IDS
    ensures |r.switch.lists| == IDS
    decreases |ms|
  {
    if ms == [] then d else HandleAll(Handle(d, ms[0]), ms[1..])
  }

  lemma {:induction false} HandleMore<K, P>(d: Dp<K, P>, a: seq<Bytes>, b: seq<Bytes>)
    requires (forall m | m in a + b :: WellFormed(m)) && |d.switch.lists| == IDS
    ensures forall m | m in a || m in b :: WellFormed(m)
    ensures HandleAll(d, a + b) == HandleAll(HandleAll(d, a), b)
    decreases |a|
  {
    assert forall m | m in a || m in b :: m in a + b;
    if a == [] {
      assert a + b == b;
    } else {
      assert (a + b)[1..] == a[1..] + b;
      HandleMore(Handle(d, a[0]), a[1..], b);
    }
  }

  // ---- Reading a stream in pieces ----

  datatype Progress<!K, P> = Progress(dp: Dp<K, P>, buffered: Bytes)

  // `datapath_handle_read` on one chunk after the other: the messages that are all there are
  // handled, and the tail waits for the next chunk.
  function Reads<K, P>(d: Dp<K, P>, buffered: Bytes, chunks: seq<Bytes>): Progress<K, P>
    requires AllWellFormed(buffered + Concat(chunks)) && |d.switch.lists| == IDS
    decreases |chunks|
  {
    if chunks == [] then Progress(d, buffered)
    else
      var now := buffered + chunks[0];
      assert now + Concat(chunks[1..]) == buffered + Concat(chunks);
      WellFormedGoesOn(now, Concat(chunks[1..]));
      WellFormedIsFramed(now);
      Reads(HandleAll(d, Messages(now)), Unparsed(now), chunks[1..])
  }

  // However a stream is cut into reads, the switch ends up where one read of the whole stream would
  // have taken it, with the same answers queued and the same tail buffered.
  lemma {:induction false} ReadsDoNotMatter<K, P>(d: Dp<K, P>, buffered: Bytes, chunks: seq<Bytes>)
    requires AllWellFormed(buffered + Concat(chunks)) && !Complete(buffered) && |d.switch.lists| == IDS
    ensures var stream := buffered + Concat(chunks);
            && Framed(stream) && (forall m | m in Messages(stream) :: WellFormed(m))
            && Reads(d, buffered, chunks) == Progress(HandleAll(d, Messages(stream)), Unparsed(stream))
    decreases |chunks|
  {
    var stream := buffered + Concat(chunks);
    WellFormedIsFramed(stream);
    if chunks == [] {
      assert stream == buffered;
    } else {
      var now, later := buffered + chunks[0], Concat(chunks[1..]);
      assert now + later == stream;
      WellFormedGoesOn(now, later);
      WellFormedIsFramed(now);
      ParseGoesOn(now, later);
      UnparsedIsIncomplete(now);
      HandleMore(d, Messages(now), Messages(Unparsed(now) + later));
      hide WellFormed, Message, Complete, Messages, Unparsed, HandleAll;
      ReadsDoNotMatter(HandleAll(d, Messages(now)), Unparsed(now), chunks[1..]);
    }
  }

  // ---- Whole runs: messages that are read, and packets that are taken from the ring ----

  // A packet that waits in the ring, with the slot that the hash table has for a new flow.
  datatype Waiting<K, P> = NoPacket | Next(key: K, pkt: P, frame: Frame, slot: nat, room: bool)

  function Arrival<K, P>(w: Waiting<K, P>): Action<K, P>
    requires w.Next?
  {
    Packet(w.key, w.pkt, w.slot, w.room)
  }

  // The list of the packet that waits.
  function IdOf<K, P>(s: Switch<K, P>, w: Waiting<K, P>): nat
    requires w.Next?
  {
    if w.key in s.ids then s.ids[w.key] else w.slot
  }

  // What taking the packet makes the switch ask the controller: nothing or one message.
  function Question<K, P>(s: Switch<K, P>, w: Waiting<K, P>): seq<Bytes>
    requires w.Next? && FrameOk(w.frame) && Enabled(s, Arrival(w))
  {
    if w.key !in s.ids && !w.room then []
    else if s.lists[IdOf(s, w)].flag then []
    else [PacketInBytes(s.xid, IdOf(s, w), w.frame)]
  }

  datatype Happening<K, P> = Told(m: Request) | Taken(w: Waiting<K, P>)

  predicate Possible<K, P>(d: Dp<K, P>, h: Happening<K, P>) {
    && |d.switch.lists| == IDS && !d.switch.exited
    && (h.Taken? ==> d.ready && h.w.Next? && FrameOk(h.w.frame) && Enabled(d.switch, Arrival(h.w)))
  }

  function Says<K, P>(d: Dp<K, P>, h: Happening<K, P>): seq<Bytes>
    requires Possible(d, h)
  {
    match h
    case Told(m) => Reply(d.id, d.config, m)
    case Taken(w) => Question(d.switch, w)
  }

  function React<K, P>(d: Dp<K, P>, h: Happening<K, P>): Dp<K, P>
    requires Possible(d, h)
  {
    match h
    case Told(m) => Handle(d, m)
    case Taken(w) => d.(switch := Step(d.switch, Arrival(w)), out := d.out + Concat(Question(d.switch, w)))
  }

  predicate Happens<K, P>(d: Dp<K, P>, hs: seq<Happening<K, P>>)
    decreases |hs|
  {
    hs == [] || (Possible(d, hs[0]) && Happens(React(d, hs[0]), hs[1..]))
  }

  function ReactAll<K, P>(d: Dp<K, P>, hs: seq<Happening<K, P>>): Dp<K, P>
    requires Happens(d, hs)
    decreases |hs|
  {
    if hs == [] then d else ReactAll(React(d, hs[0]), hs[1..])
  }

  function SaysAll<K, P>(d: Dp<K, P>, hs: seq<Happening<K, P>>): seq<Bytes>
    requires Happens(d, hs)
    decreases |hs|
  {
    if hs == [] then [] else Says(d, hs[0]) + SaysAll(React(d, hs[0]), hs[1..])
  }

  function AllTold<K, P>(ms: seq<Bytes>): seq<Happening<K, P>>
    requires forall m | m in ms :: WellFormed(m)
  {
    if ms == [] then [] else [Told(ms[0])] + AllTold(ms[1..])
  }

  // Handling the messages of a read is such a run.
  lemma {:induction false} HandleAllIsRun<K, P>(d: Dp<K, P>, ms: seq<Bytes>)
    requires (forall m | m in ms :: WellFormed(m)) && |d.switch.lists| == IDS && !d.switch.exited
    ensures Happens(d, AllTold(ms)) && ReactAll(d, AllTold(ms)) == HandleAll(d, ms)
    decreases |ms|
  {
    if ms != [] {
      var hs := AllTold<K, P>(ms);
      assert hs[0] == Told(ms[0]) && hs[1..] == AllTold<K, P>(ms[1..]);
      HandleAllIsRun(Handle(d, ms[0]), ms[1..]);
    }
  }

  lemma {:induction false} ConcatJoins<T>(a: seq<seq<T>>, b: seq<seq<T>>)
    ensures Concat(a + b) == Concat(a) + Concat(b)
    decreases |a|
  {
    if a == [] {
      assert a + b == b;
    } else {
      assert (a + b)[1..] == a[1..] + b;
      ConcatJoins(a[1..], b);
    }
  }

  lemma ConcatOne<T>(part: seq<T>)
    ensures Concat([part]) == part
  {
    assert Concat([part]) == part + Concat([part][1..]);
  }

  // The bytes of the answer to each kind of message.
  lemma SaidTo(id: DatapathId, c: Config, m: Request)
    ensures var t, said := Type(m), Concat(Reply(id, c, m));
            && (t == ECHO_REQUEST ==> said == HeaderBytes(ECHO_REPLY, HEADER, Xid(m)))
            && (t == BARRIER_REQUEST ==> said == HeaderBytes(BARRIER_REPLY, HEADER, Xid(m)))
            && (t == VENDOR ==> said == VendorReply(Xid(m)))
            && (t == FEATURES_REQUEST ==> said == FeaturesReply(id, Xid(m)))
            && (t == GET_CONFIG_REQUEST ==> said == ConfigReply(c, Xid(m)))
            && (AsksDescription(m) ==> said == DescReply(m))
            && (!IsAsking(m) ==> said == [])
  {
    var replies := Reply(id, c, m);
    if IsAsking(m) {
      ConcatOne(replies[0]);
    }
    hide HeaderBytes, VendorReply, FeaturesReply, DescReply, ConfigReply, WellFormed;
  }

  // What is queued is what the switch says, message after message.
  lemma {:induction false} OutIsWhatIsSaid<K, P>(d: Dp<K, P>, hs: seq<Happening<K, P>>)
    requires Happens(d, hs)
    ensures ReactAll(d, hs).out == d.out + Concat(SaysAll(d, hs))
    decreases |hs|
  {
    if hs != [] {
      var next := React(d, hs[0]);
      var first, rest := Says(d, hs[0]), SaysAll(next, hs[1..]);
      assert next.out == d.out + Concat(first);
      hide React, Says, Possible;
      OutIsWhatIsSaid(next, hs[1..]);
      ConcatJoins(first, rest);
      PlusIsAssociative(d.out, Concat(first), Concat(rest));
    }
  }

  // ---- What the controller can read of it ----

  // The length field of the last SET_CONFIG, or `first` if there was none.
  function LengthSet<K, P>(first: nat, hs: seq<Happening<K, P>>): nat {
    if hs == [] then first
    else
      var last := hs[|hs| - 1];
      if last.Told? && Type(last.m) == SET_CONFIG then Length(last.m) else LengthSet(first, hs[..|hs| - 1])
  }

  predicate AsksConfig<K, P>(h: Happening<K, P>) { h.Told? && Type(h.m) == GET_CONFIG_REQUEST }

  // Whenever the configuration is asked for, the last SET_CONFIG before has the length 12.
  ghost predicate Configured<K(!new), P(!new)>(first: nat, hs: seq<Happening<K, P>>) {
    forall i | 0 <= i < |hs| && AsksConfig(hs[i]) :: LengthSet(first, hs[..i]) == CONFIG_SIZE
  }

  function AfterOne<K, P>(first: nat, h: Happening<K, P>): nat {
    if h.Told? && Type(h.m) == SET_CONFIG then Length(h.m) else first
  }

  lemma {:induction false} LengthSetFront<K, P>(first: nat, h: Happening<K, P>, hs: seq<Happening<K, P>>)
    ensures LengthSet(first, [h] + hs) == LengthSet(AfterOne(first, h), hs)
    decreases |hs|
  {
    if hs == [] {
      assert [h] + hs == [h];
    } else {
      var n := |hs| - 1;
      assert ([h] + hs)[..|hs|] == [h] + hs[..n];
      LengthSetFront(first, h, hs[..n]);
    }
  }

  lemma ConfiguredFront<K(!new), P(!new)>(first: nat, hs: seq<Happening<K, P>>)
    requires hs != []
    ensures Configured(first, hs) <==>
            (AsksConfig(hs[0]) ==> first == CONFIG_SIZE) && Configured(AfterOne(first, hs[0]), hs[1..])
  {
    forall i | 0 < i <= |hs|
      ensures LengthSet(first, hs[..i]) == LengthSet(AfterOne(first, hs[0]), hs[1..][..i - 1])
    {
      assert hs[..i] == [hs[0]] + hs[1..][..i - 1];
      LengthSetFront(first, hs[0], hs[1..][..i - 1]);
    }
    hide AfterOne, AsksConfig;
    var rest := hs[1..];
    if Configured(first, hs) {
      forall i | 0 <= i < |rest| && AsksConfig(rest[i])
        ensures LengthSet(AfterOne(first, hs[0]), rest[..i]) == CONFIG_SIZE
      {
        assert AsksConfig(hs[i + 1]);
      }
      assert hs[..0] == [];
    }
    if (AsksConfig(hs[0]) ==> first == CONFIG_SIZE) && Configured(AfterOne(first, hs[0]), rest) {
      forall i | 0 <= i < |hs| && AsksConfig(hs[i])
        ensures LengthSet(first, hs[..i]) == CONFIG_SIZE
      {
        if i == 0 {
          assert hs[..0] == [];
        } else {
          assert AsksConfig(rest[i - 1]);
        }
      }
    }
  }

  lemma OneSaid<K(!new), P(!new)>(d: Dp<K, P>, h: Happening<K, P>)
    requires Possible(d, h)
    ensures forall r | r in Says(d, h) :: |r| >= HEADER && (WellSized(r) || |r| > HEADER)
    ensures (forall r | r in Says(d, h) :: WellSized(r)) <==> (AsksConfig(h) ==> Length(d.config) == CONFIG_SIZE)
    ensures Length(React(d, h).config) == AfterOne(Length(d.config), h)
  {
    hide Reply, PacketInBytes, ConfigReply;
    match h
    case Told(m) =>
      ReplyIsPaired(d.id, d.config, m);
      if AsksConfig(h) {
        assert Reply(d.id, d.config, m)[0] in Reply(d.id, d.config, m);
      }
    case Taken(_) =>
  }

  lemma {:induction false} AllSaid<K(!new), P(!new)>(d: Dp<K, P>, hs: seq<Happening<K, P>>)
    requires Happens(d, hs)
    ensures forall r | r in SaysAll(d, hs) :: |r| >= HEADER && (WellSized(r) || |r| > HEADER)
    ensures (forall r | r in SaysAll(d, hs) :: WellSized(r)) <==> Configured(Length(d.config), hs)
    decreases |hs|
  {
    if hs != [] {
      OneSaid(d, hs[0]);
      ConfiguredFront(Length(d.config), hs);
      AllSaid(React(d, hs[0]), hs[1..]);
      var first, rest := Says(d, hs[0]), SaysAll(React(d, hs[0]), hs[1..]);
      assert SaysAll(d, hs) == first + rest;
      hide Says, React, Configured, WellSized, Possible, AsksConfig, AfterOne;
      assert (forall r | r in first + rest :: WellSized(r)) <==>
             (forall r | r in first :: WellSized(r)) && (forall r | r in rest :: WellSized(r));
    }
  }

  // The controller, parsing what the switch sends, gets back exactly what the switch says, in
  // order, if and only if it asks for the configuration only after a SET_CONFIG of length 12.
  lemma ControllerReadsReplies<K(!new), P(!new)>(d: Dp<K, P>, queued: seq<Bytes>, hs: seq<Happening<K, P>>)
    requires Happens(d, hs) && d.out == Concat(queued) && forall r | r in queued :: WellSized(r)
    ensures var out, said := ReactAll(d, hs).out, queued + SaysAll(d, hs);
            (Framed(out) && Messages(out) == said && Unparsed(out) == []) <==> Configured(Length(d.config), hs)
  {
    var said := SaysAll(d, hs);
    OutIsWhatIsSaid(d, hs);
    AllSaid(d, hs);
    hide Says, React, Configured, Possible, ReactAll, Framed, Messages, Unparsed, Happens, SaysAll;
    ConcatJoins(queued, said);
    ParseIsExact(queued + said);
    assert (forall r | r in queued + said :: WellSized(r)) <==> forall r | r in said :: WellSized(r);
  }

  const ASK_CONFIG: Request := [VERSION, GET_CONFIG_REQUEST, 0, 8, 0, 0, 0, 2]
  const ASK_ECHO: Request := [VERSION, ECHO_REQUEST, 0, 8, 0, 0, 0, 3]

  // A switch that is asked for its configuration before it has been given one, and then for an
  // echo: the controller reads the HELLO and waits for ever for the rest of a long message.
  lemma UnsetConfigIsUnreadable<K(!new), P(!new)>(id: DatapathId)
    ensures var d, hs := Start<K, P>(id), [Told(ASK_CONFIG), Told(ASK_ECHO)];
            && Happens(d, hs) && |SaysAll(d, hs)| == 2
            && var out := ReactAll(d, hs).out;
            Framed(out) && Messages(out) == [HELLO_BYTES] && Unparsed(out) == out[HEADER..] && |out| == 28
  {
    var d := Start<K, P>(id);
    var asked, echo: Happening<K, P> := Told(ASK_CONFIG), Told(ASK_ECHO);
    var c, e := ConfigReply(FIRST_CONFIG, Xid(ASK_CONFIG)), HeaderBytes(ECHO_REPLY, HEADER, Xid(ASK_ECHO));
    TwoHappen(d, asked, echo);
    SaidTo(id, FIRST_CONFIG, ASK_CONFIG);
    SaidTo(id, React(d, asked).config, ASK_ECHO);
    assert React(d, asked).out == HELLO_BYTES + c;
    assert React(React(d, asked), echo).out == HELLO_BYTES + c + e;
    assert |Says(d, asked)| == 1 && |Says(React(d, asked), echo)| == 1;
    assert Length(c) == 3072;
    hide *;
    LongMessageWaits(HELLO_BYTES, c, e);
  }

  lemma TwoHappen<K, P>(d: Dp<K, P>, a: Happening<K, P>, b: Happening<K, P>)
    requires Possible(d, a) && Possible(React(d, a), b)
    ensures Happens(d, [a, b]) && ReactAll(d, [a, b]) == React(React(d, a), b)
    ensures SaysAll(d, [a, b]) == Says(d, a) + Says(React(d, a), b)
  {
    hide Possible, React, Says;
    assert [a, b][1..] == [b] && [b][1..] == [];
    assert Happens(React(d, a), [b]) && ReactAll(React(d, a), [b]) == React(React(d, a), b);
    assert SaysAll(React(d, a), [b]) == Says(React(d, a), b) + [];
  }

  lemma LongMessageWaits(hello: Bytes, config: Bytes, echo: Bytes)
    requires |hello| == HEADER && Length(hello) == HEADER && |config| == CONFIG_SIZE && Length(config) == 3072
    requires |echo| == HEADER
    ensures var out := hello + config + echo; Framed(out) && Messages(out) == [hello] && Unparsed(out) == out[HEADER..]
  {
    var tail := config + echo;
    assert hello + config + echo == hello + tail;
    assert Length(tail) == 3072;
    FrontStays(hello, tail);
    assert Message(hello) == hello && (hello + tail)[HEADER..] == tail;
  }

  // ---- What runs do to the packet lists ----

  function BufferActions<K, P>(hs: seq<Happening<K, P>>): seq<Action<K, P>>
    requires forall h | h in hs && h.Taken? :: h.w.Next?
  {
    if hs == [] then []
    else
      var rest := BufferActions(hs[1..]);
      match hs[0]
      case Taken(w) => [Arrival(w)] + rest
      case Told(m) => if Flushes(m) then [FlowMod(Word(m, BUFFER_ID))] + rest else rest
  }

  // The buffering of a whole run is a run of the buffering: what `SdnBuffering` proves of its runs
  // holds of the lists of the switch.
  lemma {:induction false} BufferingIsRun<K(!new), P(!new)>(d: Dp<K, P>, hs: seq<Happening<K, P>>)
    requires Happens(d, hs)
    ensures forall h | h in hs && h.Taken? :: h.w.Next?
    ensures Reaches(d.switch, BufferActions(hs), ReactAll(d, hs).switch)
    decreases |hs|
  {
    if hs != [] {
      var h, next := hs[0], React(d, hs[0]);
      BufferingIsRun(next, hs[1..]);
      assert forall x | x in hs :: x == h || x in hs[1..];
      var rest := BufferActions(hs[1..]);
      if h.Taken? || Flushes(h.m) {
        var a := if h.Taken? then Arrival(h.w) else FlowMod(Word(h.m, BUFFER_ID));
        assert BufferActions(hs) == [a] + rest;
        assert ([a] + rest)[1..] == rest;
        assert next.switch == Step(d.switch, a);
      } else {
        assert next.switch == d.switch;
      }
    }
  }

  // ---- The questions in the history are the PACKET_INs in the output ----

  function Asks<K, P>(log: seq<Event<K, P>>): seq<Event<K, P>> {
    if log == [] then []
    else
      var e := log[|log| - 1];
      Asks(log[..|log| - 1]) + if e.PacketIn? then [e] else []
  }

  predicate IsPacketIn(m: Bytes) { |m| >= HEADER && Type(m) == PACKET_IN }

  function PacketIns(ms: seq<Bytes>): seq<Bytes> {
    if ms == [] then [] else (if IsPacketIn(ms[0]) then [ms[0]] else []) + PacketIns(ms[1..])
  }

  predicate AsksAbout(m: Bytes, id: nat) { IsPacketIn(m) && |m| >= 12 && Word(m, 8) == id }

  // The PACKET_INs for one buffer id.
  function QuestionsFor(ms: seq<Bytes>, id: nat): nat {
    if ms == [] then 0 else (if AsksAbout(ms[0], id) then 1 else 0) + QuestionsFor(ms[1..], id)
  }

  // The message asks the question of the event, about a packet that was taken.
  ghost predicate Carries<K(!new), P(!new)>(m: Bytes, e: Event<K, P>, hs: seq<Happening<K, P>>) {
    e.PacketIn? && e.asked < IDS &&
    exists w: Waiting<K, P> ::
      Taken(w) in hs && w.Next? && FrameOk(w.frame) && m == PacketInBytes(e.xid, e.asked, w.frame)
  }

  // The messages carry the questions that `all` has more than `was`.
  ghost predicate CarryAll<K(!new), P(!new)>(sent: seq<Bytes>, was: seq<Event<K, P>>, all: seq<Event<K, P>>,
                                             hs: seq<Happening<K, P>>) {
    && |all| == |was| + |sent| && all[..|was|] == was
    && forall i | 0 <= i < |sent| :: Carries(sent[i], all[|was| + i], hs)
  }

  lemma AsksMore<K, P>(log: seq<Event<K, P>>, e: Event<K, P>)
    ensures Asks(log + [e]) == if e.PacketIn? then Asks(log) + [e] else Asks(log)
  {
    assert (log + [e])[..|log|] == log;
    assert Asks(log) + [] == Asks(log);
  }

  lemma {:induction false} PacketInsJoin(a: seq<Bytes>, b: seq<Bytes>, id: nat)
    ensures PacketIns(a + b) == PacketIns(a) + PacketIns(b)
    ensures QuestionsFor(a + b, id) == QuestionsFor(a, id) + QuestionsFor(b, id)
    decreases |a|
  {
    if a == [] {
      assert a + b == b;
    } else {
      assert (a + b)[1..] == a[1..] + b;
      hide IsPacketIn, AsksAbout;
      PacketInsJoin(a[1..], b, id);
    }
  }

  lemma CarryJoin<K(!new), P(!new)>(a: seq<Bytes>, b: seq<Bytes>, was: seq<Event<K, P>>, mid: seq<Event<K, P>>,
                                    all: seq<Event<K, P>>, h: Happening<K, P>, hs: seq<Happening<K, P>>)
    requires CarryAll(a, was, mid, [h]) && CarryAll(b, mid, all, hs)
    ensures CarryAll(a + b, was, all, [h] + hs)
  {
    hide Carries;
    assert all[..|was|] == mid[..|was|] == was;
    forall i | 0 <= i < |a + b|
      ensures Carries((a + b)[i], all[|was| + i], [h] + hs)
    {
      if i < |a| {
        assert all[|was| + i] == all[..|mid|][|was| + i] == mid[|was| + i];
        CarriesStill(a[i], mid[|was| + i], [h], [h] + hs);
      } else {
        CarriesStill(b[i - |a|], all[|mid| + (i - |a|)], hs, [h] + hs);
      }
    }
  }

  lemma CarriesStill<K(!new), P(!new)>(m: Bytes, e: Event<K, P>, some: seq<Happening<K, P>>, hs: seq<Happening<K, P>>)
    requires Carries(m, e, some) && forall h | h in some :: h in hs
    ensures Carries(m, e, hs)
  {
    hide PacketInBytes;
  }

  // One message or one packet asks what it adds to the history.
  lemma OneAsks<K(!new), P(!new)>(d: Dp<K, P>, h: Happening<K, P>, id: nat)
    requires Possible(d, h)
    ensures CarryAll(PacketIns(Says(d, h)), Asks(d.switch.log), Asks(React(d, h).switch.log), [h])
    ensures Questions(React(d, h).switch.log, id) == Questions(d.switch.log, id) + QuestionsFor(Says(d, h), id)
  {
    match h
    case Told(m) => ToldAsksNothing(d, m, id);
    case Taken(w) => TakenAsks(d, w, id);
  }

  lemma ToldAsksNothing<K(!new), P(!new)>(d: Dp<K, P>, m: Request, id: nat)
    requires Possible(d, Told(m))
    ensures PacketIns(Says(d, Told(m))) == [] && QuestionsFor(Says(d, Told(m)), id) == 0
    ensures Asks(React(d, Told(m)).switch.log) == Asks(d.switch.log)
    ensures Questions(React(d, Told(m)).switch.log, id) == Questions(d.switch.log, id)
  {
    ReplyIsPaired(d.id, d.config, m);
    if Flushes(m) {
      var e := Released(Word(m, BUFFER_ID), d.switch.lists[Word(m, BUFFER_ID)].pkts);
      AsksMore(d.switch.log, e);
      OneMore(d.switch.log, e, id);
    }
    var r := Reply(d.id, d.config, m);
    assert forall x | x in r :: Type(x) != PACKET_IN;
    hide *;
    NoPacketIns(r, id);
  }

  lemma {:induction false} NoPacketIns(ms: seq<Bytes>, id: nat)
    requires forall m | m in ms :: |m| >= HEADER && Type(m) != PACKET_IN
    ensures PacketIns(ms) == [] && QuestionsFor(ms, id) == 0
  {
    if ms != [] {
      NoPacketIns(ms[1..], id);
    }
  }

  // What taking a packet adds to the history.
  lemma TakenLog<K, P>(s: Switch<K, P>, w: Waiting<K, P>)
    requires w.Next? && FrameOk(w.frame) && Enabled(s, Arrival(w))
    ensures var log := Step(s, Arrival(w)).log;
            if w.key !in s.ids && !w.room then log == s.log
            else if s.lists[IdOf(s, w)].flag then log == s.log + [Arrived(w.key, IdOf(s, w), w.pkt)]
            else log == s.log + [Arrived(w.key, IdOf(s, w), w.pkt)] + [PacketIn(s.xid, IdOf(s, w))]
  {}

  lemma TakenAsks<K(!new), P(!new)>(d: Dp<K, P>, w: Waiting<K, P>, id: nat)
    requires Possible(d, Taken(w))
    ensures CarryAll(PacketIns(Says(d, Taken(w))), Asks(d.switch.log), Asks(React(d, Taken(w)).switch.log), [Taken(w)])
    ensures Questions(React(d, Taken(w)).switch.log, id) ==
            Questions(d.switch.log, id) + QuestionsFor(Says(d, Taken(w)), id)
  {
    var s := d.switch;
    TakenLog(s, w);
    hide Step, PacketInBytes, Asks, Questions, PacketIns, QuestionsFor, CarryAll;
    hide Answers, ArrivedAt, ReturnedFrom, AllQuestions, IsPacketIn, Word;
    NoPacketIns([], id);
    NoneCarried(Asks(s.log), [Taken(w)]);
    if w.key in s.ids || w.room {
      var e, q := Arrived(w.key, IdOf(s, w), w.pkt), PacketIn(s.xid, IdOf(s, w));
      AsksMore(s.log, e);
      OneMore(s.log, e, id);
      if !s.lists[IdOf(s, w)].flag {
        AsksMore(s.log + [e], q);
        OneMore(s.log + [e], q, id);
        OnePacketIn(PacketInBytes(s.xid, IdOf(s, w), w.frame), id);
        assert Taken(w) in [Taken(w)];
        OneCarried(PacketInBytes(s.xid, IdOf(s, w), w.frame), q, Asks(s.log), [Taken(w)]);
      }
    }
  }

  lemma NoneCarried<K(!new), P(!new)>(was: seq<Event<K, P>>, hs: seq<Happening<K, P>>)
    ensures CarryAll([], was, was, hs)
  {}

  lemma OneCarried<K(!new), P(!new)>(m: Bytes, e: Event<K, P>, was: seq<Event<K, P>>, hs: seq<Happening<K, P>>)
    requires Carries(m, e, hs)
    ensures CarryAll([m], was, was + [e], hs)
  {
    hide Carries;
  }

  lemma OnePacketIn(m: Bytes, id: nat)
    requires IsPacketIn(m) && |m| >= 12
    ensures PacketIns([m]) == [m] && QuestionsFor([m], id) == if Word(m, 8) == id then 1 else 0
  {
    assert [m][1..] == [];
  }

  // In every run, the PACKET_INs in the output are the questions added to the history, in order,
  // with their transaction and buffer ids; their number for each buffer id is that in the history.
  lemma {:induction false} PacketInsAreAsked<K(!new), P(!new)>(d: Dp<K, P>, hs: seq<Happening<K, P>>, id: nat)
    requires Happens(d, hs)
    ensures CarryAll(PacketIns(SaysAll(d, hs)), Asks(d.switch.log), Asks(ReactAll(d, hs).switch.log), hs)
    ensures Questions(ReactAll(d, hs).switch.log, id) ==
            Questions(d.switch.log, id) + QuestionsFor(SaysAll(d, hs), id)
    decreases |hs|
  {
    if hs != [] {
      var next := React(d, hs[0]);
      assert SaysAll(d, hs) == Says(d, hs[0]) + SaysAll(next, hs[1..]);
      hide Says, React, Possible, CarryAll, PacketIns, QuestionsFor, Asks, Questions;
      OneAsks(d, hs[0], id);
      PacketInsAreAsked(next, hs[1..], id);
      PacketInsJoin(Says(d, hs[0]), SaysAll(next, hs[1..]), id);
      CarryJoin(PacketIns(Says(d, hs[0])), PacketIns(SaysAll(next, hs[1..])), Asks(d.switch.log),
                Asks(next.switch.log), Asks(ReactAll(d, hs).switch.log), hs[0], hs[1..]);
      assert [hs[0]] + hs[1..] == hs;
    }
  }

  // Asking and flushing in every run of the switch, in terms of what it sends.
  lemma EveryRunAsksOnce<K(!new), P(!new)>(dpid: DatapathId, hs: seq<Happening<K, P>>, id: nat)
    requires Happens(Start(dpid), hs) && id < IDS
    ensures var s, said := ReactAll(Start(dpid), hs).switch, SaysAll(Start(dpid), hs);
            && Inv(s) && |s.lists| == IDS && (s.lists[id].flag <==> s.lists[id].pkts != [])
            && QuestionsFor(said, id) - Answers(s.log, id) == (if s.lists[id].flag then 1 else 0)
            && ArrivedAt(s.log, id) == ReturnedFrom(s.log, id) + s.lists[id].pkts
  {
    var s := ReactAll(Start(dpid), hs).switch;
    PacketInsAreAsked(Start(dpid), hs, id);
    assert Questions(Start<K, P>(dpid).switch.log, id) == 0;
    BufferingIsRun(Start(dpid), hs);
    InitialInv<K, P>();
    hide Inv, Happens, React, Possible, QuestionsFor, SaysAll;
    ReachableInv(Initial(), BufferActions(hs), s);
    OneQuestionForEachWait(BufferActions(hs), s, id);
  }

  // The switch is ready for packets from the first HELLO or request for features on.
  lemma {:induction false} ReadyAfterHello<K(!new), P(!new)>(d: Dp<K, P>, hs: seq<Happening<K, P>>)
    requires Happens(d, hs)
    ensures ReactAll(d, hs).ready <==>
            d.ready || exists h :: h in hs && h.Told? && Type(h.m) in {HELLO, FEATURES_REQUEST}
    decreases |hs|
  {
    if hs != [] {
      ReadyAfterHello(React(d, hs[0]), hs[1..]);
      assert forall h | h in hs :: h == hs[0] || h in hs[1..];
    }
  }

  // ---- The switch as an object ----

  class Datapath<K(!new, ==), P(!new)> {
    const inbuf: MsgBuf
    const outbuf: MsgBuf
    const table: PktTable<P>
    const id: DatapathId
    var ready: bool
    var config: Config
    var xid: nat
    var ids: map<K, nat>
    var exited: bool
    ghost var log: seq<Event<K, P>>

    ghost predicate Valid()
      reads this, inbuf, outbuf, table, table.lists, table.Repr
    {
      && inbuf != outbuf && inbuf.buf != outbuf.buf && inbuf.Valid() && outbuf.Valid()
      && SoundTable(table) && |table.view| == IDS
      && {this, inbuf, outbuf, inbuf.buf, outbuf.buf} !! table.Repr
    }

    ghost function Buffered(): Switch<K, P>
      reads this, table
    {
      Switch(table.view, ids, xid, log, exited)
    }

    ghost function View(): Dp<K, P>
      reads this, inbuf, outbuf, outbuf.buf, table, table.lists, table.Repr
      requires Valid()
    {
      Dp(id, ready, config, Buffered(), outbuf.Contents())
    }

    constructor (id: DatapathId, bufsize: nat)
      requires bufsize > 0
      ensures Valid() && fresh(inbuf) && fresh(outbuf) && fresh(inbuf.buf) && fresh(outbuf.buf) && fresh(table.Repr)
      ensures inbuf.Contents() == []
      ensures View() == Start(id)
    {
      hide PktTable.Valid;
      this.id := id;
      inbuf := new MsgBuf(bufsize);
      outbuf := new MsgBuf(bufsize);
      table := new PktTable<P>();
      ready, config, xid, ids, log, exited := false, FIRST_CONFIG, 1, map[], [], false;
      new;
      outbuf.Push(HELLO_BYTES);
    }

    // `msgbuf_push` of one message.
    method Say(m: Bytes)
      requires Valid()
      modifies outbuf, outbuf.buf
      ensures Valid() && (outbuf.buf == old(outbuf.buf) || fresh(outbuf.buf))
      ensures View() == old(View()).(out := old(outbuf.Contents()) + m)
    {
      hide PktTable.Valid;
      outbuf.Push(m);
    }

    // One message of `datapath_handle_read`.
    method HandleMessage(m: Request)
      requires Valid()
      modifies this, outbuf, outbuf.buf, table.Repr
      ensures Valid() && (outbuf.buf == old(outbuf.buf) || fresh(outbuf.buf)) && fresh(table.Repr - old(table.Repr))
      ensures View() == Handle(old(View()), m)
    {
      SaidTo(id, config, m);
      hide PktTable.Valid;
      hide Concat, Reply, HeaderBytes, ShortBytes, VendorReply, FeaturesReply, DescReply, ConfigReply;
      var t := Type(m);
      if t == HELLO {
        ready := true;
      } else if t == FEATURES_REQUEST {
        Say(FeaturesReply(id, Xid(m)));
        ready := true;
      } else if t == SET_CONFIG {
        config := m[..CONFIG_SIZE];
      } else if t == GET_CONFIG_REQUEST {
        config := ConfigReply(config, Xid(m));
        Say(config);
      } else if t == VENDOR {
        Say(VendorReply(Xid(m)));
      } else if t == ECHO_REQUEST {
        Say(HeaderBytes(ECHO_REPLY, HEADER, Xid(m)));
      } else if t == BARRIER_REQUEST {
        Say(HeaderBytes(BARRIER_REPLY, HEADER, Xid(m)));
      } else if t == STATS_REQUEST {
        if Short(m, HEADER) == DESC {
          Say(DescReply(m));
        }
      } else if t == FLOW_MOD {
        var id := Word(m, BUFFER_ID);
        if id != NO_BUFFER {
          log := log + [Released(id, table.view[id].pkts)];
          var returned := table.Release(id);
        }
      }
    }

    // The message at the front of the input, if it is all there.
    method NextMessage() returns (any: bool, m: Bytes)
      requires Valid() && AllWellFormed(inbuf.Contents())
      modifies inbuf
      ensures Valid() && inbuf.buf == old(inbuf.buf)
      ensures any <==> Complete(old(inbuf.Contents()))
      ensures any ==> WellFormed(m) && m == Message(old(inbuf.Contents()))
      ensures any ==> inbuf.Contents() == old(inbuf.Contents())[Length(old(inbuf.Contents()))..]
      ensures !any ==> inbuf.Contents() == old(inbuf.Contents())
    {
      hide PktTable.Valid;
      m := [];
      any := false;
      ghost var c := inbuf.Contents();
      FrontIs(c);
      hide AllWellFormed, WellFormed, Message, Length;
      var count := inbuf.end - inbuf.start;
      if count >= HEADER {
        var at := inbuf.Peek();
        var front := inbuf.buf[at..inbuf.end];
        assert front == c;
        var length := Length(front[..HEADER]);
        if count < length {
          return;
        }
        var seen := if length < HEADER then HEADER else length;
        any, m := true, front[..seen];
        var n, _ := inbuf.Pull(length);
      }
    }

    // One pass of the loop of `datapath_handle_read`.
    method HandleNext() returns (any: bool)
      requires Valid() && AllWellFormed(inbuf.Contents())
      modifies this, inbuf, outbuf, outbuf.buf, table.Repr
      ensures Valid() && inbuf.buf == old(inbuf.buf) && (outbuf.buf == old(outbuf.buf) || fresh(outbuf.buf))
      ensures fresh(table.Repr - old(table.Repr))
      ensures any <==> Complete(old(inbuf.Contents()))
      ensures any ==> WellFormed(Message(old(inbuf.Contents())))
      ensures any ==> View() == Handle(old(View()), Message(old(inbuf.Contents())))
      ensures any ==> inbuf.Contents() == old(inbuf.Contents())[Length(old(inbuf.Contents()))..]
      ensures !any ==> View() == old(View()) && inbuf.Contents() == old(inbuf.Contents())
    {
      hide AllWellFormed, WellFormed, Message, Length, Handle, PktTable.Valid;
      var m;
      any, m := NextMessage();
      if any {
        HandleMessage(m);
      }
    }

    // `datapath_handle_read`: one read from the socket, then every message that is all there.
    // `ok` is false where the program exits.
    method HandleRead(incoming: Transfer) returns (ok: bool)
      requires Valid()
      requires incoming.Moved? ==> |incoming.bytes| <= inbuf.len - inbuf.end
      requires incoming.Moved? ==> AllWellFormed(inbuf.Contents() + incoming.bytes)
      modifies this, inbuf, inbuf.buf, outbuf, outbuf.buf, table.Repr
      ensures Valid()
      ensures ok <==> incoming.Moved? && incoming.bytes != []
      ensures ok ==>
                var b := old(inbuf.Contents()) + incoming.bytes;
                && Framed(b) && (forall m | m in Messages(b) :: WellFormed(m))
                && View() == HandleAll(old(View()), Messages(b))
                && inbuf.Contents() == Unparsed(b)
    {
      ghost var b := inbuf.Contents() + if incoming.Moved? then incoming.bytes else [];
      ghost var before := View();
      var count := inbuf.Read(incoming);
      if count <= 0 {
        return false;
      }
      ok := true;
      WellFormedIsFramed(b);
      var any := true;
      PendingBegins(b, before);
      hide PktTable.Valid, Pending, Handle, HandleAll, AllWellFormed, WellFormed, Framed, Messages, Unparsed, Length;
      while any
        invariant Valid()
        invariant inbuf.buf == old(inbuf.buf) || fresh(inbuf.buf)
        invariant (outbuf.buf == old(outbuf.buf) || fresh(outbuf.buf)) && fresh(table.Repr - old(table.Repr))
        invariant Pending(inbuf.Contents(), View(), b, before)
        invariant !any ==> !Complete(inbuf.Contents())
        decreases any, |inbuf.Contents()|
      {
        PendingGoesOn(inbuf.Contents(), View(), b, before);
        any := HandleNext();
      }
      PendingEnds(inbuf.Contents(), View(), b, before);
    }

    // A packet off the ring, into the list of its flow. `first` is whether the controller is to be
    // asked about the list; the transaction id is taken then.
    method Keep(key: K, pkt: P, id: nat) returns (first: bool)
      requires Valid() && id < IDS
      modifies `ids, `log, `xid, table.Repr
      ensures Valid() && fresh(table.Repr - old(table.Repr))
      ensures View() == old(View()).(switch := TakePacket(old(Buffered()), key, pkt, id))
      ensures first <==> !old(table.view)[id].flag
    {
      hide PktTable.Valid;
      ids := ids[key := id];
      log := log + [Arrived(key, id, pkt)];
      first := table.Take(id, pkt);
      if first {
        log := log + [PacketIn(xid, id)];
        xid := xid + 1;
      }
    }

    // One packet, and one question for each list.
    method TakeWaiting(w: Waiting<K, P>)
      requires Valid() && w.Next? && FrameOk(w.frame) && Enabled(Buffered(), Arrival(w))
      modifies this, outbuf, outbuf.buf, table.Repr
      ensures Valid() && (outbuf.buf == old(outbuf.buf) || fresh(outbuf.buf)) && fresh(table.Repr - old(table.Repr))
      ensures View() == old(View()).(switch := Step(old(Buffered()), Arrival(w)),
                                     out := old(outbuf.Contents()) + Concat(Question(old(Buffered()), w)))
    {
      TakingIs(Buffered(), w);
      hide Step, TakePacket, Question, Concat, Enabled, PacketInBytes, PktTable.Valid;
      if w.key !in ids && !w.room {
        exited := true;
        return;
      }
      var id := if w.key in ids then ids[w.key] else w.slot;
      var question := PacketInBytes(xid, id, w.frame);
      var first := Keep(w.key, w.pkt, id);
      if first {
        Say(question);
      }
    }

    // `datapath_handle_write`: one packet, if the controller has said hello, and one write of what
    // there is to send; the socket takes `room` bytes at most, or fails with -1.
    method HandleWrite(w: Waiting<K, P>, room: int) returns (sent: Bytes)
      requires Valid() && -1 <= room
      requires ready && w.Next? ==> Possible(View(), Taken(w))
      modifies this, outbuf, outbuf.buf, table.Repr
      ensures Valid()
      ensures View().(out := sent + outbuf.Contents()) ==
              if old(ready) && w.Next? then React(old(View()), Taken(w)) else old(View())
    {
      hide PktTable.Valid;
      sent := [];
      if ready && w.Next? {
        TakeWaiting(w);
        if exited {
          return;
        }
      }
      var queued := outbuf.end - outbuf.start;
      if queued > 0 {
        var count;
        count, sent := outbuf.Write(0, Min(room, queued));
      }
    }
  }

  lemma TakingIs<K, P>(s: Switch<K, P>, w: Waiting<K, P>)
    requires w.Next? && FrameOk(w.frame) && Enabled(s, Arrival(w)) && |s.lists| == IDS
    ensures w.key !in s.ids && !w.room ==>
              Step(s, Arrival(w)) == s.(exited := true) && Concat(Question(s, w)) == []
    ensures w.key in s.ids || w.room ==>
              && IdOf(s, w) < IDS && Step(s, Arrival(w)) == TakePacket(s, w.key, w.pkt, IdOf(s, w))
              && Concat(Question(s, w)) ==
                 if s.lists[IdOf(s, w)].flag then [] else PacketInBytes(s.xid, IdOf(s, w), w.frame)
  {
    hide PacketInBytes;
    if (w.key in s.ids || w.room) && !s.lists[IdOf(s, w)].flag {
      ConcatOne(PacketInBytes(s.xid, IdOf(s, w), w.frame));
    }
  }

  lemma FrontIs(c: Bytes)
    requires AllWellFormed(c)
    ensures |c| >= HEADER ==> Length(c[..HEADER]) == Length(c)
    ensures Complete(c) ==> 0 < Length(c) && WellFormed(Message(c))
    ensures Complete(c) ==> Message(c) == c[..if Length(c) < HEADER then HEADER else Length(c)]
  {}

  // What is left to handle of `b`, from where the switch is now, gives what all of `b` gave from
  // where the switch was before.
  ghost predicate Pending<K(!new), P(!new)>(left: Bytes, now: Dp<K, P>, b: Bytes, before: Dp<K, P>)
  {
    AllWellFormed(left) && AllWellFormed(b) && Framed(left) && Framed(b) &&
    (forall m | m in Messages(left) || m in Messages(b) :: WellFormed(m)) &&
    |now.switch.lists| == IDS && |before.switch.lists| == IDS &&
    HandleAll(now, Messages(left)) == HandleAll(before, Messages(b)) &&
    Unparsed(left) == Unparsed(b)
  }

  lemma PendingBegins<K(!new), P(!new)>(b: Bytes, before: Dp<K, P>)
    requires AllWellFormed(b) && |before.switch.lists| == IDS
    ensures Pending(b, before, b, before)
  {
    WellFormedIsFramed(b);
  }

  lemma PendingGoesOn<K(!new), P(!new)>(left: Bytes, now: Dp<K, P>, b: Bytes, before: Dp<K, P>)
    requires Pending(left, now, b, before)
    ensures AllWellFormed(left) && |now.switch.lists| == IDS
    ensures Complete(left) ==> WellFormed(Message(left)) && Length(left) > 0
    ensures Complete(left) ==> Pending(left[Length(left)..], Handle(now, Message(left)), b, before)
  {
    if Complete(left) {
      var rest := left[Length(left)..];
      assert Messages(left) == [Message(left)] + Messages(rest);
      assert Messages(left)[1..] == Messages(rest);
      hide Handle, WellFormed;
    }
  }

  lemma PendingEnds<K(!new), P(!new)>(left: Bytes, now: Dp<K, P>, b: Bytes, before: Dp<K, P>)
    requires Pending(left, now, b, before) && !Complete(left)
    ensures Framed(b) && (forall m | m in Messages(b) :: WellFormed(m)) && |before.switch.lists| == IDS
    ensures now == HandleAll(before, Messages(b)) && left == Unparsed(b)
  {}
}
