/**
 The messages of the switch written out in bytes, with the numbers of the OpenFlow Switch
 Specification 1.0.0 and the texts of `examples/flow_table/sdn.c`.
 */
module OpenFlowBytes {
  import opened MsgBuf
  import opened Framing
  import opened Sequences
  import opened SdnBuffering
  import opened OpenFlow

  // Numbers are written most significant byte first.
  lemma NumbersAre(n: nat)
    requires n < 0x1_0000_0000
    ensures n < 0x1_0000 ==> ShortBytes(n) == [n / 256, n % 256]
    ensures WordBytes(n) == [n / 0x100_0000, n / 0x1_0000 % 256, n / 256 % 256, n % 256]
  {
    assert n / 0x1_0000 / 256 == n / 0x100_0000 && n % 0x1_0000 / 256 == n / 256 % 256;
  }

  lemma NumbersAreRead(a: Byte, b: Byte, c: Byte, d: Byte)
    ensures Short([a, b], 0) == 256 * a + b
    ensures Word([a, b, c, d], 0) == 0x100_0000 * a + 0x1_0000 * b + 256 * c + d
  {
  }

  lemma FieldsAre(m: Bytes)
    requires |m| >= 8
    ensures var high: int, low: int := m[2], m[3];
            Type(m) == m[1] && Length(m) == 256 * high + low && Xid(m) == m[4..8]
  {
  }

  lemma TextIs(text: string, n: nat, i: nat)
    requires |text| <= n && i < n
    ensures Padded(text, n)[i] == if i < |text| then text[i] as int % 256 else 0
  {
  }

  // A port of the features reply: number, address, the name `veth` with a digit, and a speed.
  lemma PortIs(number: Byte, address: Bytes, digit: Byte)
    requires |address| == 6
    ensures var p := Port(number, address, digit);
            && p[0] == 0 && p[1] == number && p[2..8] == address && p[8..13] == [118, 101, 116, 104, digit]
            && forall i | 13 <= i < 48 :: p[i] == if i == 35 then 192 else 0
  {
  }

  lemma HeaderIs(kind: Byte, length: nat, xid: Bytes)
    requires length < 0x1_0000 && |xid| == 4
    ensures HeaderBytes(kind, length, xid) == [1, kind, length / 256, length % 256] + xid
  {
    assert [VERSION, kind] + [length / 256, length % 256] == [1, kind, length / 256, length % 256];
  }

  // Every answer, by the type of the request.
  lemma RepliesAre(id: DatapathId, c: Config, m: Request)
    ensures m[1] == 2 ==> Reply(id, c, m) == [[1, 3, 0, 8] + m[4..8]]
    ensures m[1] == 18 ==> Reply(id, c, m) == [[1, 19, 0, 8] + m[4..8]]
    ensures m[1] == 4 ==> Reply(id, c, m) == [[1, 1, 0, 12] + m[4..8] + [0, 1, 0, 3]]
    ensures m[1] == 7 ==> Reply(id, c, m) == [[c[0], 8] + c[2..4] + m[4..8] + c[8..12]]
    ensures m[1] == 5 ==> Reply(id, c, m) == [FeaturesReply(id, m[4..8])]
    ensures m[1] == 16 && m[8] == 0 && m[9] == 0 ==> Reply(id, c, m) == [DescReply(m)]
    ensures m[1] !in {2, 18, 4, 7, 5, 16} || (m[1] == 16 && !(m[8] == 0 && m[9] == 0)) ==> Reply(id, c, m) == []
  {
    hide FeaturesReply, DescReply;
    VendorIs(m[4..8]);
    assert HeaderBytes(ECHO_REPLY, HEADER, m[4..8]) == [1, 3, 0, 8] + m[4..8];
    assert HeaderBytes(BARRIER_REPLY, HEADER, m[4..8]) == [1, 19, 0, 8] + m[4..8];
    assert c[8..] == c[8..12];
    hide HeaderBytes, VendorReply;
  }

  lemma VendorIs(xid: Bytes)
    requires |xid| == 4
    ensures VendorReply(xid) == [1, 1, 0, 12] + xid + [0, 1, 0, 3]
  {
    assert ShortBytes(1) + ShortBytes(3) == [0, 1, 0, 3];
    assert HeaderBytes(ERROR, 12, xid) == [1, 1, 0, 12] + xid;
  }

  // The features: no buffers to speak of, two tables, and four ports.
  lemma FeaturesAre(id: DatapathId, xid: Bytes)
    requires |xid| == 4
    ensures FeaturesReply(id, xid) ==
            [1, 6, 0, 224] + xid + (Repeat(0, 4) + WordBytes(id) +
              ([0, 0, 1, 0, 2] + Repeat(0, 9) + [7, 255] +
               Port(1, [26, 193, 81, 255, 239, 138], 49) + Port(2, [206, 47, 162, 135, 246, 112], 51) +
               Port(3, [202, 138, 30, 243, 119, 239], 53) + Port(4, [250, 188, 119, 141, 126, 11], 55)))
  {
    hide HeaderBytes, Repeat, Port, WordBytes;
    HeaderIs(FEATURES_REPLY, 224, xid);
  }

  lemma DescriptionIs(m: Request)
    requires |m| >= 12
    ensures DescReply(m) ==
            [m[0], 17, 4, 44] + m[4..8] + ([m[8], m[9], 0, 0] +
              Padded("Cbench - controller I/O benchmark", 256) + Padded("this is actually software...", 256) +
              Padded("version 1", 256) + Padded("none", 32) + Padded("none", 256))
  {
    assert [m[0], STATS_REPLY] + ShortBytes(1068) + m[4..8] == [m[0], 17, 4, 44] + m[4..8];
    assert m[8..10] + [0, 0] == [m[8], m[9], 0, 0];
    hide Padded;
  }

  // A question: the ids, the length twice, the port, the reason 0, and the first bytes of the packet.
  lemma PacketInIs(xid: nat, id: nat, f: Frame)
    requires FrameOk(f) && id < IDS
    ensures PacketInBytes(xid, id, f) ==
            [1, 10, 0, 148] + WordBytes(xid % 0x1_0000_0000) +
            (WordBytes(id) + [0, 148] + f.port + [0, 0] + f.first + [0, 0])
  {
    assert HeaderBytes(PACKET_IN, 148, WordBytes(xid % 0x1_0000_0000)) ==
           [1, 10, 0, 148] + WordBytes(xid % 0x1_0000_0000);
    assert ShortBytes(148) == [0, 148];
    hide HeaderBytes, WordBytes;
  }

  // What is stored after a message.
  lemma ConfigIs(c: Config, m: Request)
    ensures m[1] == 9 ==> NextConfig(c, m) == m[..12]
    ensures m[1] == 7 ==> NextConfig(c, m) == [c[0], 8] + c[2..4] + m[4..8] + c[8..12]
    ensures m[1] !in {7, 9} ==> NextConfig(c, m) == c
    ensures FIRST_CONFIG == [1, 8, 12, 0, 0, 0, 0, 0, 0, 0, 0, 0]
  {
    assert c[8..] == c[8..12];
  }
}
