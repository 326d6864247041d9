/**
 The OpenFlow messages that `examples/flow_table/sdn.c` reads and writes, as bytes
 (section 5 of the OpenFlow Switch Specification 1.0.0).
 */
module OpenFlow {
  import opened Sequences
  import opened MsgBuf
  import opened Framing
  import opened SdnBuffering

  const VERSION := 1

  const HELLO := 0
  const ERROR := 1
  const ECHO_REQUEST := 2
  const ECHO_REPLY := 3
  const VENDOR := 4
  const FEATURES_REQUEST := 5
  const FEATURES_REPLY := 6
  const GET_CONFIG_REQUEST := 7
  const GET_CONFIG_REPLY := 8
  const SET_CONFIG := 9
  const PACKET_IN := 10
  const FLOW_MOD := 14
  const STATS_REQUEST := 16
  const STATS_REPLY := 17
  const BARRIER_REQUEST := 18
  const BARRIER_REPLY := 19

  // `sizeof(struct ofp_switch_config)`
  const CONFIG_SIZE := 12

  // `sizeof(struct ofp_flow_mod)` and the place of its buffer id.
  const FLOW_MOD_SIZE := 72
  const BUFFER_ID := 64

  // `sizeof(struct ofp_stats_request)` and the request for the description of the switch.
  const STATS_SIZE := 12
  const DESC := 0

  // `UINT32_MAX`: no packet waits.
  const NO_BUFFER := 0xFFFF_FFFF

  function Type(m: Bytes): Byte
    requires |m| >= HEADER
  {
    m[1]
  }

  function Xid(m: Bytes): Bytes
    requires |m| >= HEADER
  {
    m[4..8]
  }

  function Word(b: Bytes, at: nat): nat
    requires at + 4 <= |b|
  {
    Short(b, at) * 0x1_0000 + Short(b, at + 2)
  }

  function ShortBytes(n: nat): (b: Bytes)
    requires n < 0x1_0000
    ensures |b| == 2 && Short(b, 0) == n
  {
    [n / 256, n % 256]
  }

  function WordBytes(n: nat): (b: Bytes)
    requires n < 0x1_0000_0000
    ensures |b| == 4 && Word(b, 0) == n
  {
    ShortBytes(n / 0x1_0000) + ShortBytes(n % 0x1_0000)
  }

  function HeaderBytes(kind: Byte, length: nat, xid: Bytes): (b: Bytes)
    requires length < 0x1_0000 && |xid| == 4
    ensures |b| == HEADER && Type(b) == kind && Length(b) == length && Xid(b) == xid
  {
    [VERSION, kind] + ShortBytes(length) + xid
  }

  // A message by itself: its length field is its length.
  predicate WellSized(m: Bytes) {
    |m| >= HEADER && Length(m) == |m|
  }

  lemma SizedByHeader(head: Bytes, body: Bytes)
    requires |head| == HEADER
    ensures var m := head + body; Type(m) == Type(head) && Length(m) == Length(head) && Xid(m) == Xid(head)
  {
    assert (head + body)[4..8] == head[4..8];
  }

  // What the handlers read of a message is in it, and a FLOW_MOD names a list or none. A message
  // that is shorter than a header is seen with the bytes that follow it.
  predicate WellFormed(m: Bytes) {
    && |m| >= HEADER
    && (Type(m) == SET_CONFIG ==> |m| >= CONFIG_SIZE)
    && (Type(m) == STATS_REQUEST ==> |m| >= STATS_SIZE)
    && (Type(m) == FLOW_MOD ==> |m| >= FLOW_MOD_SIZE && (Word(m, BUFFER_ID) < IDS || Word(m, BUFFER_ID) == NO_BUFFER))
  }

  type Request = m: Bytes | WellFormed(m) witness [VERSION, HELLO, 0, 8, 0, 0, 0, 1]

  predicate AllWellFormed(b: Bytes) {
    Complete(b) ==> Length(b) > 0 && WellFormed(Message(b)) && AllWellFormed(b[Length(b)..])
  }

  lemma {:induction false} WellFormedIsFramed(b: Bytes)
    requires AllWellFormed(b)
    ensures Framed(b) && forall m | m in Messages(b) :: WellFormed(m)
    decreases |b|
  {
    if Complete(b) {
      WellFormedIsFramed(b[Length(b)..]);
    }
  }

  lemma {:induction false} WellFormedGoesOn(b: Bytes, more: Bytes)
    requires AllWellFormed(b + more)
    ensures AllWellFormed(b) && Framed(b) && AllWellFormed(Unparsed(b) + more)
    decreases |b|
  {
    if Complete(b) {
      FrontStays(b, more);
      hide WellFormed, Message, Length;
      WellFormedGoesOn(b[Length(b)..], more);
    }
  }

  // ---- What the switch says ----

  // `static int ID`
  type DatapathId = n: nat | n < 0x8000_0000

  type Config = b: Bytes | |b| == CONFIG_SIZE witness [0, 0, 0, 0, 0, 0, 0, 0, 0, 0, 0, 0]

  // `Switch_config` as it lies in memory from the start. The length has the byte order of the host,
  // here the lower byte first, so in network byte order the field reads 3072.
  const FIRST_CONFIG: Config := [VERSION, GET_CONFIG_REPLY, CONFIG_SIZE, 0, 0, 0, 0, 0, 0, 0, 0, 0]

  // `make_config_reply`: the type and the id are set in what is stored, and all of it is sent.
  function ConfigReply(c: Config, xid: Bytes): (r: Config)
    requires |xid| == 4
    ensures Type(r) == GET_CONFIG_REPLY && Xid(r) == xid && Length(r) == Length(c)
  {
    [c[0], GET_CONFIG_REPLY] + c[2..4] + xid + c[8..]
  }

  // What is stored after a message has been handled.
  function NextConfig(c: Config, m: Request): Config {
    if Type(m) == SET_CONFIG then m[..CONFIG_SIZE]
    else if Type(m) == GET_CONFIG_REQUEST then ConfigReply(c, Xid(m))
    else c
  }

  // One of the four ports `veth1`, `veth3`, `veth5` and `veth7`.
  function Port(number: Byte, address: Bytes, digit: Byte): (b: Bytes)
    requires |address| == 6
    ensures |b| == 48
  {
    [0, number] + address + [118, 101, 116, 104, digit] + Repeat(0, 22) + [192] + Repeat(0, 12)
  }

  // `make_features_reply`
  function FeaturesReply(id: DatapathId, xid: Bytes): (m: Bytes)
    requires |xid| == 4
    ensures |m| == 224 && WellSized(m) && Type(m) == FEATURES_REPLY && Xid(m) == xid
    ensures m[8..12] == Repeat(0, 4) && Word(m, 12) == id
  {
    var head := HeaderBytes(FEATURES_REPLY, 224, xid);
    var body := [0, 0, 1, 0, 2] + Repeat(0, 9) + [7, 255] +
      Port(1, [26, 193, 81, 255, 239, 138], 49) + Port(2, [206, 47, 162, 135, 246, 112], 51) +
      Port(3, [202, 138, 30, 243, 119, 239], 53) + Port(4, [250, 188, 119, 141, 126, 11], 55);
    var m := head + (Repeat(0, 4) + WordBytes(id) + body);
    SizedByHeader(head, Repeat(0, 4) + WordBytes(id) + body);
    assert m[8..12] == Repeat(0, 4) && m[12..16] == WordBytes(id);
    assert Word(m, 12) == Word(m[12..16], 0);
    m
  }

  // A string in a field of `n` bytes; the texts are ASCII.
  function Padded(text: string, n: nat): (b: Bytes)
    requires |text| <= n
    ensures |b| == n
  {
    seq(n, i requires 0 <= i < n => if i < |text| then text[i] as int % 256 else 0)
  }

  // `make_stats_desc_reply`: the version, the id and the kind are those of the request.
  function DescReply(m: Request): (r: Bytes)
    requires |m| >= STATS_SIZE
    ensures |r| == 1068 && WellSized(r) && Type(r) == STATS_REPLY && Xid(r) == Xid(m)
    ensures Short(r, 8) == Short(m, 8)
  {
    var head := [m[0], STATS_REPLY] + ShortBytes(1068) + m[4..8];
    var body := m[8..10] + [0, 0] +
      Padded("Cbench - controller I/O benchmark", 256) + Padded("this is actually software...", 256) +
      Padded("version 1", 256) + Padded("none", 32) + Padded("none", 256);
    SizedByHeader(head, body);
    assert head[4..8] == m[4..8] && body[0] == m[8] && body[1] == m[9];
    head + body
  }

  // `make_vendor_reply`
  function VendorReply(xid: Bytes): (m: Bytes)
    requires |xid| == 4
    ensures |m| == 12 && WellSized(m) && Type(m) == ERROR && Xid(m) == xid
  {
    var head := HeaderBytes(ERROR, 12, xid);
    SizedByHeader(head, ShortBytes(1) + ShortBytes(3));
    head + (ShortBytes(1) + ShortBytes(3))
  }

  predicate AsksDescription(m: Request) {
    Type(m) == STATS_REQUEST && Short(m, HEADER) == DESC
  }

  // What the switch answers to a message: nothing or one message.
  function Reply(id: DatapathId, c: Config, m: Request): seq<Bytes> {
    var t := Type(m);
    if t == ECHO_REQUEST then [HeaderBytes(ECHO_REPLY, HEADER, Xid(m))]
    else if t == BARRIER_REQUEST then [HeaderBytes(BARRIER_REPLY, HEADER, Xid(m))]
    else if t == VENDOR then [VendorReply(Xid(m))]
    else if t == FEATURES_REQUEST then [FeaturesReply(id, Xid(m))]
    else if t == GET_CONFIG_REQUEST then [ConfigReply(c, Xid(m))]
    else if AsksDescription(m) then [DescReply(m)]
    else []
  }

  // The kind of the answer to a request: one more than the request's, but for a VENDOR message.
  function AnswerTo(t: Byte): int { if t == VENDOR then ERROR else t + 1 }

  predicate IsAsking(m: Request) {
    Type(m) in {ECHO_REQUEST, BARRIER_REQUEST, VENDOR, FEATURES_REQUEST, GET_CONFIG_REQUEST} || AsksDescription(m)
  }

  // Every request is answered by one message of the right kind and with the same id, and nothing
  // else is answered. The length field of the answer is right unless the stored configuration is
  // asked for and has another length in it.
  lemma ReplyIsPaired(id: DatapathId, c: Config, m: Request)
    ensures |Reply(id, c, m)| == if IsAsking(m) then 1 else 0
    ensures forall r | r in Reply(id, c, m) ::
              && |r| >= HEADER && Xid(r) == Xid(m) && Type(r) == AnswerTo(Type(m))
              && (WellSized(r) <==> !(Type(m) == GET_CONFIG_REQUEST && Length(c) != CONFIG_SIZE))
              && (WellSized(r) || |r| > HEADER)
  {
    hide HeaderBytes, VendorReply, FeaturesReply, ConfigReply, DescReply;
  }

  // The first bytes of a packet and its port, as a PACKET_IN carries them.
  datatype Frame = Frame(port: Bytes, first: Bytes)

  predicate FrameOk(f: Frame) { |f.port| == 2 && |f.first| == 128 }

  function PacketInBytes(xid: nat, id: nat, f: Frame): (m: Bytes)
    requires FrameOk(f) && id < IDS
    ensures WellSized(m) && |m| == 148 && Type(m) == PACKET_IN
    ensures Word(Xid(m), 0) == xid % 0x1_0000_0000 && Word(m, 8) == id
  {
    var head := HeaderBytes(PACKET_IN, 148, WordBytes(xid % 0x1_0000_0000));
    var body := WordBytes(id) + ShortBytes(148) + f.port + [0, 0] + f.first + [0, 0];
    SizedByHeader(head, body);
    assert (head + body)[8..12] == WordBytes(id);
    assert Word(head + body, 8) == Word((head + body)[8..12], 0);
    head + body
  }
}
