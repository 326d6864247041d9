/**
 The formatting function of CCM as `examples/aes_encrypt/aes.c` has it: the counter block and the
 formatted buffer over which the MAC is taken. It departs from NIST SP 800-38C, see README.md.
 */
module CcmFormat {
  import opened Sequences
  import opened ByteStrings

  function Zeros(n: nat): (z: seq<bv8>)
    ensures |z| == n
  {
    Repeat(0, n)
  }

  // C division by two, which rounds towards zero.
  function HalfTowardsZero(n: int): int {
    if n < 0 then -((-n) / 2) else n / 2
  }

  // ((mac_len - 2) / 2) & 0x07
  function MacField(macLen: nat): bv8 { ByteOf(HalfTowardsZero(macLen - 2)) & 0x07 }

  // (payload_len_store_size - 1) & 0x07, where the size is 15 - nonce_len
  function SizeField(nonceLen: nat): bv8 { ByteOf(14 - nonceLen) & 0x07 }

  function Flags(assocLen: nat, macLen: nat, nonceLen: nat): bv8 {
    ((MacField(macLen) << 3) | SizeField(nonceLen)) + (if assocLen > 0 then 0x40 else 0)
  }

  // The first counter block.
  function CounterBlock(nonce: seq<bv8>): Block
    requires |nonce| <= 15
  {
    [SizeField(|nonce|)] + nonce + Zeros(15 - |nonce|)
  }

  // The first formatted block; the last two bytes hold sixteen bits of the payload length.
  function FirstBlock(assocLen: nat, payloadLen: nat, macLen: nat, nonce: seq<bv8>): Block
    requires |nonce| <= 15
  {
    var flags := Flags(assocLen, macLen, |nonce|);
    var high, low := ByteOf(payloadLen / 256), ByteOf(payloadLen);
    ([flags] + nonce + Zeros(15 - |nonce|))[..14] + [high, low]
  }

  // The padding after the associated data: never empty, a whole block if the data is aligned.
  function AssocPad(assocLen: nat): nat { 16 - (2 + assocLen) % 16 }

  function AssocPart(assoc: seq<bv8>): seq<bv8> {
    [ByteOf(|assoc| / 256), ByteOf(|assoc|)] + assoc + Zeros(AssocPad(|assoc|))
  }

  // The padding after the payload: empty if the payload is aligned.
  function PayloadPad(payloadLen: nat): nat {
    if payloadLen % 16 == 0 then 0 else 16 - payloadLen % 16
  }

  function PayloadPart(payload: seq<bv8>): seq<bv8> {
    payload + Zeros(PayloadPad(|payload|))
  }

  // What ccm_prepare_first_format_blk, ccm_format_assoc_data and ccm_format_payload_data leave in the buffer.
  function Formatted(nonce: seq<bv8>, macLen: nat, assoc: seq<bv8>, payload: seq<bv8>): seq<bv8>
    requires |nonce| <= 15
  {
    FirstBlock(|assoc|, |payload|, macLen, nonce) + AssocPart(assoc) + PayloadPart(payload)
  }

  // ---- The length ----

  function FormattedLength(assocLen: nat, payloadLen: nat): nat {
    16 + 16 * ((2 + assocLen) / 16 + 1) + 16 * ((payloadLen + 15) / 16)
  }

  // The buffer is a whole number of blocks, so the CBC-MAC never refuses it. It takes up to 49
  // bytes more than the data; the 48 that the source allocates suffice in all cases but one.
  lemma FormattedLengthIs(nonce: seq<bv8>, macLen: nat, assoc: seq<bv8>, payload: seq<bv8>)
    requires |nonce| <= 15
    ensures |Formatted(nonce, macLen, assoc, payload)| == FormattedLength(|assoc|, |payload|)
    ensures FormattedLength(|assoc|, |payload|) % 16 == 0
    ensures FormattedLength(|assoc|, |payload|) <= |assoc| + |payload| + 49
    ensures FormattedLength(|assoc|, |payload|) <= |assoc| + |payload| + 48 <==>
            !(|assoc| % 16 == 14 && |payload| % 16 == 1)
  {
    hide ByteOf, Flags;
  }

  // ---- Unique decodability ----

  datatype Message = Message(nonce: seq<bv8>, macLen: nat, assoc: seq<bv8>, payload: seq<bv8>)

  // The inputs that aes_encrypt_ccm accepts.
  predicate Legal(m: Message) {
    && 7 <= |m.nonce| <= 13
    && (m.macLen == 4 || m.macLen == 6 || m.macLen == 8 || m.macLen == 10 || m.macLen == 12 || m.macLen == 14 ||
        m.macLen == 16)
    && |m.assoc| <= 32768
  }

  function FormattedOf(m: Message): seq<bv8>
    requires Legal(m)
  {
    Formatted(m.nonce, m.macLen, m.assoc, m.payload)
  }

  function DecodedNonceLength(flags: bv8): int { 14 - ValueOf(flags & 0x07) }

  function DecodedMacLength(flags: bv8): nat { 2 * ValueOf((flags >> 3) & 0x07) + 2 }

  function DecodedLength(high: bv8, low: bv8): nat { 256 * ValueOf(high) + ValueOf(low) }

  // The message that a formatted buffer stands for.
  function Decode(f: seq<bv8>): (m: Message)
    requires |f| >= 18
  {
    var nonceLen := DecodedNonceLength(f[0]);
    var payloadLen, assocLen := DecodedLength(f[14], f[15]), DecodedLength(f[16], f[17]);
    var start := 16 + 16 * ((2 + assocLen) / 16 + 1);
    Message(
      if 0 <= nonceLen then f[1..1 + nonceLen] else [],
      DecodedMacLength(f[0]),
      if 18 + assocLen <= |f| then f[18..18 + assocLen] else [],
      if start + payloadLen <= |f| then f[start..start + payloadLen] else [])
  }

  lemma FlagBits(a: bv8, b: bv8, extra: bv8)
    requires a < 8 && b < 8 && (extra == 0 || extra == 0x40)
    ensures var flags := (((a & 0x07) << 3) | (b & 0x07)) + extra;
            flags & 0x07 == b && (flags >> 3) & 0x07 == a
  {
  }

  lemma DecodedFlags(assocLen: nat, macLen: nat, nonceLen: nat)
    requires 7 <= nonceLen <= 13
    requires macLen == 4 || macLen == 6 || macLen == 8 || macLen == 10 || macLen == 12 || macLen == 14 || macLen == 16
    ensures var flags := Flags(assocLen, macLen, nonceLen);
            DecodedNonceLength(flags) == nonceLen && DecodedMacLength(flags) == macLen
  {
    hide ByteOf, ValueOf;
    var a, b, extra: bv8 := ByteOf((macLen - 2) / 2), ByteOf(14 - nonceLen), if assocLen > 0 then 0x40 else 0;
    SmallByte((macLen - 2) / 2);
    SmallByte(14 - nonceLen);
    FlagBits(a, b, extra);
    assert HalfTowardsZero(macLen - 2) == (macLen - 2) / 2;
    var flags := Flags(assocLen, macLen, nonceLen);
    assert flags == (((a & 0x07) << 3) | (b & 0x07)) + extra;
    hide Flags;
    assert flags & 0x07 == b && (flags >> 3) & 0x07 == a;
  }

  lemma DecodedLengthIs(n: nat)
    requires n < 65536
    ensures DecodedLength(ByteOf(n / 256), ByteOf(n)) == n
  {
    hide ByteOf, ValueOf;
    ByteOfValue(n / 256);
    ByteOfValue(n);
  }

  lemma FirstBlockParts(assocLen: nat, payloadLen: nat, macLen: nat, nonce: seq<bv8>)
    requires |nonce| <= 13
    ensures var first := FirstBlock(assocLen, payloadLen, macLen, nonce);
            && first[0] == Flags(assocLen, macLen, |nonce|) && first[1..1 + |nonce|] == nonce
            && first[14] == ByteOf(payloadLen / 256) && first[15] == ByteOf(payloadLen)
  {
    hide ByteOf, Flags;
    var whole := [Flags(assocLen, macLen, |nonce|)] + nonce + Zeros(15 - |nonce|);
    assert whole[1..1 + |nonce|] == nonce;
    assert FirstBlock(assocLen, payloadLen, macLen, nonce)[1..1 + |nonce|] == whole[1..1 + |nonce|];
  }

  lemma AssocParts(assoc: seq<bv8>)
    ensures var second := AssocPart(assoc);
            && |second| == 16 * ((2 + |assoc|) / 16 + 1)
            && second[0] == ByteOf(|assoc| / 256) && second[1] == ByteOf(|assoc|)
            && second[2..2 + |assoc|] == assoc
  {
    hide ByteOf;
  }

  // The bytes of a formatted buffer, part by part.
  lemma FormattedParts(m: Message)
    requires Legal(m)
    ensures var f, n, a := FormattedOf(m), |m.nonce|, |m.assoc|;
            var start := 16 + 16 * ((2 + a) / 16 + 1);
            && |f| == FormattedLength(a, |m.payload|)
            && f[0] == Flags(a, m.macLen, n) && f[1..1 + n] == m.nonce
            && f[14] == ByteOf(|m.payload| / 256) && f[15] == ByteOf(|m.payload|)
            && f[16] == ByteOf(a / 256) && f[17] == ByteOf(a)
            && f[18..18 + a] == m.assoc
            && f[start..start + |m.payload|] == m.payload
  {
    hide ByteOf, Flags, FirstBlock, AssocPart;
    var first := FirstBlock(|m.assoc|, |m.payload|, m.macLen, m.nonce);
    var second, third := AssocPart(m.assoc), PayloadPart(m.payload);
    FirstBlockParts(|m.assoc|, |m.payload|, m.macLen, m.nonce);
    AssocParts(m.assoc);
    assert third[..|m.payload|] == m.payload;
    FormattedLengthIs(m.nonce, m.macLen, m.assoc, m.payload);
    var f, start := FormattedOf(m), 16 + |second|;
    assert f == first + second + third;
    hide *;
    assert f[..16] == first && f[16..start] == second && f[start..] == third;
    assert f[1..1 + |m.nonce|] == f[..16][1..1 + |m.nonce|];
    assert f[18..18 + |m.assoc|] == f[16..start][2..2 + |m.assoc|];
    assert f[start..start + |m.payload|] == f[start..][..|m.payload|];
  }

  // The formatted buffer determines the message it was made from.
  lemma DecodeFormatted(m: Message)
    requires Legal(m) && |m.payload| < 65536
    ensures |FormattedOf(m)| >= 18 && Decode(FormattedOf(m)) == m
  {
    hide FormattedOf, ByteOf, Flags, DecodedNonceLength, DecodedMacLength, DecodedLength;
    FormattedParts(m);
    DecodedFlags(|m.assoc|, m.macLen, |m.nonce|);
    DecodedLengthIs(|m.payload|);
    DecodedLengthIs(|m.assoc|);
  }

  // No formatted buffer is a prefix of the buffer of another message.
  lemma PrefixFree(m: Message, m': Message)
    requires Legal(m) && Legal(m') && |m.payload| < 65536 && |m'.payload| < 65536
    requires FormattedOf(m) <= FormattedOf(m')
    ensures m == m'
  {
    hide FormattedOf, ByteOf, Flags, DecodedLength;
    var f, f' := FormattedOf(m), FormattedOf(m');
    FormattedParts(m);
    FormattedParts(m');
    DecodedLengthIs(|m.payload|);
    DecodedLengthIs(|m'.payload|);
    DecodedLengthIs(|m.assoc|);
    DecodedLengthIs(|m'.assoc|);
    assert f[14] == f'[14] && f[15] == f'[15] && f[16] == f'[16] && f[17] == f'[17];
    assert f == f';
    DecodeFormatted(m);
    DecodeFormatted(m');
  }

  // Payloads below this length are told apart.
  ghost predicate DecodableBelow(limit: nat) {
    forall m, m' | Legal(m) && Legal(m') && |m.payload| < limit && |m'.payload| < limit ::
      FormattedOf(m) <= FormattedOf(m') ==> m == m'
  }

  // The empty payload and 65536 zero bytes have the same first blocks.
  lemma LongPayloadExtendsEmpty(nonce: seq<bv8>, macLen: nat, assoc: seq<bv8>)
    requires Legal(Message(nonce, macLen, assoc, []))
    ensures FormattedOf(Message(nonce, macLen, assoc, [])) < FormattedOf(Message(nonce, macLen, assoc, Zeros(65536)))
  {
    hide Flags, ByteOf, AssocPart;
    ByteOfModulo(0, 256);
    ByteOfModulo(0, 65536);
    var first, second := FirstBlock(|assoc|, 0, macLen, nonce), AssocPart(assoc);
    assert first == FirstBlock(|assoc|, 65536, macLen, nonce);
    assert PayloadPart([]) == [] && |PayloadPart(Zeros(65536))| > 0;
    hide FirstBlock, PayloadPart;
    assert FormattedOf(Message(nonce, macLen, assoc, [])) == first + second + [];
  }

  // Only sixteen bits of the payload length are stored, so payloads are told apart exactly up to
  // 65535 bytes.
  lemma DecodableExactly(limit: nat)
    ensures DecodableBelow(limit) <==> limit <= 65536
  {
    hide FormattedOf;
    if limit <= 65536 {
      forall m, m' | Legal(m) && Legal(m') && |m.payload| < limit && |m'.payload| < limit &&
                     FormattedOf(m) <= FormattedOf(m')
        ensures m == m'
      {
        PrefixFree(m, m');
      }
    } else {
      var short, long := Message(Zeros(7), 4, [], []), Message(Zeros(7), 4, [], Zeros(65536));
      LongPayloadExtendsEmpty(Zeros(7), 4, []);
      assert FormattedOf(short) <= FormattedOf(long) && |short.payload| != |long.payload|;
    }
  }
}
