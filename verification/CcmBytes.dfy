/**
 The ciphertext of `aes_encrypt_ccm` and the plaintext of `aes_decrypt_ccm` byte by byte, for every
 block cipher: which counter each byte is encrypted with, and what the MAC is taken of.
 */
module CcmBytes {
  import opened Arithmetic
  import opened AesField
  import opened ByteStrings
  import opened BlockModes
  import opened CcmFormat
  import opened AesCcm

  lemma CountersAdd(b: Block, m: nat, n: nat)
    ensures Counter(Counter(b, m), n) == Counter(b, m + n)
  {
    hide BigEndian, ToBigEndian, Pow256;
    var start, p := BigEndian(b), Pow256(16);
    NumberOfBytes(start + m, 16);
    ModuloAdds(start + m, n, p);
    SameModulo(BigEndian(Counter(b, m)) + n, start + m + n, 16);
  }

  // A string of bytes depends on the number modulo 256^k only.
  lemma SameModulo(a: nat, b: nat, k: nat)
    requires a % Pow256(k) == b % Pow256(k)
    ensures ToBigEndian(a, k) == ToBigEndian(b, k)
  {
    hide BigEndian, ToBigEndian, Pow256;
    NumberOfBytes(a, k);
    NumberOfBytes(b, k);
    BytesOfNumber(ToBigEndian(a, k));
    BytesOfNumber(ToBigEndian(b, k));
  }

  // The counter that block `k` of the payload is encrypted with: 1, 2, 3 and so on after the counter
  // of the MAC, but from that counter itself on for a MAC of 16 bytes.
  function PayloadBlock(nonce: seq<bv8>, macLen: nat, k: nat): Block
    requires |nonce| <= 15
  {
    Counter(CounterBlock(nonce), if macLen == 16 then k else 1 + k)
  }

  lemma PayloadBlockIs(nonce: seq<bv8>, macLen: nat, k: nat)
    requires |nonce| <= 13 && LegalMacLength(macLen)
    ensures Counter(PayloadCounter(nonce, macLen), k) == PayloadBlock(nonce, macLen, k)
  {
    hide Counter, PayloadCounter, CounterBlock;
    PayloadCounterIs(nonce, macLen);
    CountersAdd(CounterBlock(nonce), 1, k);
  }

  // The last block of the CBC encryption of the formatted buffer with an IV of zeros.
  function LastBlock(nonce: seq<bv8>, macLen: nat, assoc: seq<bv8>, payload: seq<bv8>, e: Block -> Block): Block
    requires |nonce| <= 15
  {
    FormattedLengthIs(nonce, macLen, assoc, payload);
    var f := Formatted(nonce, macLen, assoc, payload);
    Chunk(CbcEncrypted(f, Zeros(16), e), |f| / 16 - 1)
  }

  // The MAC, before it is encrypted, is the front of that block.
  lemma MacIs(nonce: seq<bv8>, macLen: nat, assoc: seq<bv8>, payload: seq<bv8>, e: Block -> Block)
    requires |nonce| <= 15 && macLen <= 16
    ensures Mac(nonce, macLen, assoc, payload, e) == LastBlock(nonce, macLen, assoc, payload, e)[..macLen]
  {
    hide Formatted, CbcEncrypted, CbcMac;
    FormattedLengthIs(nonce, macLen, assoc, payload);
    var f := Formatted(nonce, macLen, assoc, payload);
    MacIsLastBlock(f, Zeros(16), e);
    assert 16 * (|f| / 16 - 1) == |f| - 16;
    var c: seq<bv8> := CbcEncrypted(f, Zeros(16), e);
    assert c[|f| - 16..] == c[|f| - 16..|f| - 16 + 16];
  }

  // Each byte of the payload under its counter, and behind it the front of `m` under the first one.
  ghost predicate BytesAre(c: seq<bv8>, nonce: seq<bv8>, macLen: nat, payload: seq<bv8>, m: Block, e: Block -> Block)
    requires |nonce| <= 13 && LegalMacLength(macLen) && |c| == |payload| + macLen
  {
    && (forall i | 0 <= i < |payload| :: c[i] == Add(payload[i], e(PayloadBlock(nonce, macLen, i / 16))[i % 16]))
    && (forall j | 0 <= j < macLen :: c[|payload| + j] == Add(m[j], e(CounterBlock(nonce))[j]))
  }

  // What aes_encrypt_ccm writes: each byte of the payload under its counter, and behind it each byte
  // of the MAC under the first counter.
  lemma CiphertextBytes(nonce: seq<bv8>, macLen: nat, assoc: seq<bv8>, payload: seq<bv8>, e: Block -> Block)
    requires |nonce| <= 13 && LegalMacLength(macLen)
    ensures |CcmEncrypted(nonce, macLen, assoc, payload, e)| == |payload| + macLen
    ensures BytesAre(CcmEncrypted(nonce, macLen, assoc, payload, e), nonce, macLen, payload,
                     LastBlock(nonce, macLen, assoc, payload, e), e)
  {
    hide Add, Counter, CounterBlock, PayloadCounter, PayloadBlock, LastBlock, Mac, CtrEncrypted;
    MacIs(nonce, macLen, assoc, payload, e);
    CounterStart(CounterBlock(nonce));
    forall i | 0 <= i < |payload|
      ensures Counter(PayloadCounter(nonce, macLen), i / 16) == PayloadBlock(nonce, macLen, i / 16)
    {
      PayloadBlockIs(nonce, macLen, i / 16);
    }
  }

  // What aes_decrypt_ccm makes of any ciphertext, and when it finds it authentic.
  lemma PlaintextBytes(nonce: seq<bv8>, macLen: nat, assoc: seq<bv8>, c: seq<bv8>, e: Block -> Block)
    requires |nonce| <= 13 && LegalMacLength(macLen) && macLen <= |c|
    ensures var n, p := |c| - macLen, CcmPlaintext(nonce, macLen, c, e);
            var m := LastBlock(nonce, macLen, assoc, p, e);
            && |p| == n
            && (forall i | 0 <= i < n :: p[i] == Add(c[i], e(PayloadBlock(nonce, macLen, i / 16))[i % 16]))
            && (Authentic(nonce, macLen, assoc, c, e) <==>
                forall j | 0 <= j < macLen :: Add(c[n + j], e(CounterBlock(nonce))[j]) == m[j])
  {
    hide Add, Counter, CounterBlock, PayloadCounter, PayloadBlock, LastBlock, Mac, CtrEncrypted;
    var n, p := |c| - macLen, CcmPlaintext(nonce, macLen, c, e);
    MacIs(nonce, macLen, assoc, p, e);
    CounterStart(CounterBlock(nonce));
    forall i | 0 <= i < n
      ensures Counter(PayloadCounter(nonce, macLen), i / 16) == PayloadBlock(nonce, macLen, i / 16)
    {
      PayloadBlockIs(nonce, macLen, i / 16);
    }
    var received := CtrEncrypted(c[n..], CounterBlock(nonce), e);
    assert forall j | 0 <= j < macLen :: received[j] == Add(c[n + j], e(CounterBlock(nonce))[j]);
  }

  // ---- The blocks themselves ----

  // The first counter block: the size of the length field less one, the nonce, zeros.
  lemma CounterBlockBytes(nonce: seq<bv8>)
    requires 7 <= |nonce| <= 13
    ensures var b := CounterBlock(nonce);
            && ValueOf(b[0]) == 14 - |nonce| && b[1..1 + |nonce|] == nonce
            && forall i | 1 + |nonce| <= i < 16 :: b[i] == 0
  {
    SizeFieldIs(|nonce|);
    hide SizeField, ValueOf;
  }

  lemma SizeFieldIs(n: nat)
    requires 7 <= n <= 13
    ensures ValueOf(SizeField(n)) == 14 - n
  {
    SmallByte(14 - n);
    hide ByteOf, ValueOf;
    LowBits(ByteOf(14 - n));
  }

  lemma LowBits(b: bv8)
    requires b < 8
    ensures b & 0x07 == b
  {
  }

  // The eight bits of the flags: three for the size of the length field, three for the MAC, one for
  // associated data, and a zero.
  lemma FlagsAre(assocLen: nat, macLen: nat, nonceLen: nat)
    requires 7 <= nonceLen <= 13 && LegalMacLength(macLen)
    ensures var flags := Flags(assocLen, macLen, nonceLen);
            && ValueOf(flags & 0x07) == 14 - nonceLen && ValueOf((flags >> 3) & 0x07) == (macLen - 2) / 2
            && flags >> 6 == if assocLen > 0 then 1 else 0
  {
    hide Flags, ValueOf;
    DecodedFlags(assocLen, macLen, nonceLen);
    TopOfFlags(assocLen, macLen, nonceLen);
  }

  lemma TopOfFlags(assocLen: nat, macLen: nat, nonceLen: nat)
    requires 7 <= nonceLen <= 13 && LegalMacLength(macLen)
    ensures Flags(assocLen, macLen, nonceLen) >> 6 == if assocLen > 0 then 1 else 0
  {
    FieldsAreSmall(macLen, nonceLen);
    hide MacField, SizeField, LegalMacLength;
    TopBits(MacField(macLen), SizeField(nonceLen));
  }

  lemma FieldsAreSmall(macLen: nat, nonceLen: nat)
    requires 7 <= nonceLen <= 13 && LegalMacLength(macLen)
    ensures MacField(macLen) < 8 && SizeField(nonceLen) < 8
  {
    hide ByteOf;
    ThreeBits(ByteOf(HalfTowardsZero(macLen - 2)));
    ThreeBits(ByteOf(14 - nonceLen));
  }

  lemma ThreeBits(b: bv8)
    ensures b & 0x07 < 8
  {
  }

  lemma TopBits(a: bv8, b: bv8)
    requires a < 8 && b < 8
    ensures ((a << 3) | b) >> 6 == 0 && (((a << 3) | b) + 0x40) >> 6 == 1
  {
  }

  // The formatted buffer: flags, nonce, zeros and sixteen bits of the payload length; the length of
  // the associated data, the data and 1 to 16 zeros; the payload and 0 to 15 zeros.
  lemma FormattedBytes(nonce: seq<bv8>, macLen: nat, assoc: seq<bv8>, payload: seq<bv8>)
    requires |nonce| <= 13
    ensures var a, p := |assoc|, |payload|;
            Formatted(nonce, macLen, assoc, payload) ==
            ([Flags(a, macLen, |nonce|)] + nonce + Zeros(13 - |nonce|) + ToBigEndian(p, 2)) +
            (ToBigEndian(a, 2) + assoc + Zeros(16 - (2 + a) % 16)) +
            (payload + Zeros((16 - p % 16) % 16))
  {
    hide *;
    FirstPart(|assoc|, |payload|, macLen, nonce);
    SecondPart(assoc);
    ThirdPart(payload);
    ThreeParts(nonce, macLen, assoc, payload);
  }

  lemma ThreeParts(nonce: seq<bv8>, macLen: nat, assoc: seq<bv8>, payload: seq<bv8>)
    requires |nonce| <= 15
    ensures Formatted(nonce, macLen, assoc, payload) ==
            FirstBlock(|assoc|, |payload|, macLen, nonce) + AssocPart(assoc) + PayloadPart(payload)
  {
    hide FirstBlock, AssocPart, PayloadPart;
  }

  lemma FirstPart(a: nat, p: nat, macLen: nat, nonce: seq<bv8>)
    requires |nonce| <= 13
    ensures FirstBlock(a, p, macLen, nonce) ==
            [Flags(a, macLen, |nonce|)] + nonce + Zeros(13 - |nonce|) + ToBigEndian(p, 2)
  {
    TwoBytes(p);
    hide Flags, ByteOf, ToBigEndian;
    var head: seq<bv8> := [Flags(a, macLen, |nonce|)] + nonce;
    ShorterZeros(15 - |nonce|);
    hide Zeros;
    assert (head + Zeros(15 - |nonce|))[..14] == head + Zeros(15 - |nonce|)[..13 - |nonce|];
  }

  lemma ShorterZeros(n: nat)
    requires n >= 2
    ensures Zeros(n)[..n - 2] == Zeros(n - 2)
  {
  }

  lemma SecondPart(assoc: seq<bv8>)
    ensures AssocPart(assoc) == ToBigEndian(|assoc|, 2) + assoc + Zeros(16 - (2 + |assoc|) % 16)
  {
    TwoBytes(|assoc|);
    var head: seq<bv8> := [ByteOf(|assoc| / 256), ByteOf(|assoc|)];
    assert AssocPart(assoc) == head + assoc + Zeros(AssocPad(|assoc|)) by {
      hide ByteOf, Zeros, AssocPad, ToBigEndian;
    }
    assert AssocPad(|assoc|) == 16 - (2 + |assoc|) % 16;
    hide *;
  }

  lemma ThirdPart(payload: seq<bv8>)
    ensures PayloadPart(payload) == payload + Zeros((16 - |payload| % 16) % 16)
  {
    hide Zeros;
  }

  lemma TwoBytes(n: nat)
    ensures ToBigEndian(n, 2) == [ByteOf(n / 256), ByteOf(n)]
  {
    hide ByteOf;
    assert ToBigEndian(n / 256, 1) == ToBigEndian(n / 256 / 256, 0) + [ByteOf(n / 256)];
  }
}
