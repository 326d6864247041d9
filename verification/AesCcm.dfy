/**
 CCM encryption and decryption of `examples/aes_encrypt/aes.c`: the MAC of the formatted buffer is
 appended to the payload, and both are encrypted in counter mode.
 */
module AesCcm {
  import opened AesCipher
  import opened AesKeySchedule
  import opened AesModes
  import opened BlockModes
  import opened ByteStrings
  import opened CcmFormat

  // ---- CCM as functions of the block cipher ----

  // A counter block after increment_iv with a counter of `counterSize` bytes.
  function Incremented(b: Block, counterSize: int): Block
    requires counterSize <= 16
  {
    if counterSize <= 0 then b
    else b[..16 - counterSize] + ToBigEndian(BigEndian(b[16 - counterSize..]) + 1, counterSize)
  }

  // The counter that the payload starts with. For a MAC of 16 bytes the source passes a counter
  // size of -1, so this is the counter block of the MAC again.
  function PayloadCounter(nonce: seq<bv8>, macLen: nat): Block
    requires |nonce| <= 15 && macLen <= 16
  {
    Incremented(CounterBlock(nonce), 15 - macLen)
  }

  function Mac(nonce: seq<bv8>, macLen: nat, assoc: seq<bv8>, payload: seq<bv8>, e: Block -> Block): (mac: seq<bv8>)
    requires |nonce| <= 15 && macLen <= 16
    ensures |mac| == macLen
  {
    FormattedLengthIs(nonce, macLen, assoc, payload);
    CbcMac(Formatted(nonce, macLen, assoc, payload), Zeros(16), e)[..macLen]
  }

  function CcmEncrypted(nonce: seq<bv8>, macLen: nat, assoc: seq<bv8>, payload: seq<bv8>, e: Block -> Block):
      (c: seq<bv8>)
    requires |nonce| <= 15 && macLen <= 16
    ensures |c| == |payload| + macLen
  {
    CtrEncrypted(payload, PayloadCounter(nonce, macLen), e) +
    CtrEncrypted(Mac(nonce, macLen, assoc, payload, e), CounterBlock(nonce), e)
  }

  function CcmPlaintext(nonce: seq<bv8>, macLen: nat, ciphertext: seq<bv8>, e: Block -> Block): (p: seq<bv8>)
    requires |nonce| <= 15 && macLen <= 16 && macLen <= |ciphertext|
    ensures |p| == |ciphertext| - macLen
  {
    CtrEncrypted(ciphertext[..|ciphertext| - macLen], PayloadCounter(nonce, macLen), e)
  }

  // Whether the MAC in the ciphertext is the MAC of what it decrypts to.
  predicate Authentic(nonce: seq<bv8>, macLen: nat, assoc: seq<bv8>, ciphertext: seq<bv8>, e: Block -> Block)
    requires |nonce| <= 15 && macLen <= 16 && macLen <= |ciphertext|
  {
    CtrEncrypted(ciphertext[|ciphertext| - macLen..], CounterBlock(nonce), e) ==
    Mac(nonce, macLen, assoc, CcmPlaintext(nonce, macLen, ciphertext, e), e)
  }

  // What aes_decrypt_ccm leaves in the plaintext buffer; without the check nothing is erased.
  function CcmDecrypted(nonce: seq<bv8>, macLen: nat, assoc: seq<bv8>, ciphertext: seq<bv8>, check: bool,
                        e: Block -> Block): (p: seq<bv8>)
    requires |nonce| <= 15 && macLen <= 16 && macLen <= |ciphertext|
    ensures |p| == |ciphertext| - macLen
  {
    if check && !Authentic(nonce, macLen, assoc, ciphertext, e) then Zeros(|ciphertext| - macLen)
    else CcmPlaintext(nonce, macLen, ciphertext, e)
  }

  // The round trip: decryption of an encryption restores the payload and finds it authentic, for
  // every block cipher, nonce, MAC length, associated data and payload.
  lemma CcmRoundTrip(nonce: seq<bv8>, macLen: nat, assoc: seq<bv8>, payload: seq<bv8>, check: bool, e: Block -> Block)
    requires |nonce| <= 15 && macLen <= 16
    ensures var c := CcmEncrypted(nonce, macLen, assoc, payload, e);
            && CcmPlaintext(nonce, macLen, c, e) == payload
            && Authentic(nonce, macLen, assoc, c, e)
            && CcmDecrypted(nonce, macLen, assoc, c, check, e) == payload
  {
    hide PayloadCounter, CounterBlock, Mac, CtrEncrypted;
    var c, mac := CcmEncrypted(nonce, macLen, assoc, payload, e), Mac(nonce, macLen, assoc, payload, e);
    CtrUndoesItself(payload, PayloadCounter(nonce, macLen), e);
    CtrUndoesItself(mac, CounterBlock(nonce), e);
    assert c[..|c| - macLen] == CtrEncrypted(payload, PayloadCounter(nonce, macLen), e);
    assert c[|c| - macLen..] == CtrEncrypted(mac, CounterBlock(nonce), e);
  }

  lemma NoCarry(s: seq<bv8>)
    requires |s| > 0 && s[|s| - 1] == 0
    ensures ToBigEndian(BigEndian(s) + 1, |s|) == s[..|s| - 1] + [1]
  {
    hide ByteOf, ValueOf;
    var high := BigEndian(s[..|s| - 1]);
    SmallValues();
    assert BigEndian(s) == 256 * high;
    assert (256 * high + 1) / 256 == high;
    BytesOfNumber(s[..|s| - 1]);
    ByteOfModulo(256 * high + 1, 1);
    assert ByteOf(1) == 1 by { ValueOfByte(1); }
  }

  // The payload starts at counter 1 and the MAC uses counter 0, except that for a MAC of 16 bytes
  // both start at counter 0 (15, where they would too, is no legal length).
  lemma PayloadCounterIs(nonce: seq<bv8>, macLen: nat)
    requires |nonce| <= 13 && macLen <= 16
    ensures PayloadCounter(nonce, macLen) ==
            if macLen >= 15 then CounterBlock(nonce) else Counter(CounterBlock(nonce), 1)
  {
    hide BigEndian, ToBigEndian, SizeField;
    if macLen < 15 {
      var b := CounterBlock(nonce);
      var first := 16 - (15 - macLen);
      NoCarry(b);
      NoCarry(b[first..]);
      assert b[..first] + b[first..][..|b[first..]| - 1] == b[..15];
    }
  }

  // ---- The buffers ----

  // memset with zero
  method FillZeros(a: array<bv8>, at: nat, n: nat)
    requires at + n <= a.Length
    modifies a
    ensures a[..] == old(a[..at]) + Zeros(n) + old(a[at + n..])
  {
    for i := 0 to n
      invariant a[..at] == old(a[..at])
      invariant forall j | at <= j < at + i :: a[j] == 0
      invariant a[at + i..] == old(a[at + i..])
    {
      a[at + i] := 0;
    }
  }

  method PrepareFirstCtrBlk(counter: array<bv8>, nonce: seq<bv8>)
    requires counter.Length == 16 && |nonce| <= 15
    modifies counter
    ensures counter[..] == CounterBlock(nonce)
  {
    hide SizeField;
    FillZeros(counter, 0, 16);
    assert counter[..] == Zeros(16);
    counter[0] := SizeField(|nonce|);
    PutBytes(nonce, counter, 1);
    assert counter[..] == CounterBlock(nonce);
  }

  // The nonce and zeros behind the first byte.
  method PutNonce(buf: array<bv8>, nonce: seq<bv8>)
    requires buf.Length >= 16 && |nonce| <= 15
    modifies buf
    ensures buf[..16] == [old(buf[0])] + nonce + Zeros(15 - |nonce|)
    ensures buf[16..] == old(buf[16..])
  {
    ghost var flags := buf[0];
    PutBytes(nonce, buf, 1);
    assert buf[0] == flags && buf[1..1 + |nonce|] == nonce && buf[16..] == old(buf[16..]);
    hide *;
    FillZeros(buf, 1 + |nonce|, 15 - |nonce|);
  }

  method PrepareFirstFormatBlk(buf: array<bv8>, assocLen: nat, payloadLen: nat, macLen: nat, nonce: seq<bv8>)
    requires buf.Length >= 16 && |nonce| <= 15
    modifies buf
    ensures buf[..16] == FirstBlock(assocLen, payloadLen, macLen, nonce)
    ensures buf[16..] == old(buf[16..])
  {
    hide Flags, ByteOf, Zeros;
    SetFlags(buf, assocLen, macLen, |nonce|);
    PutNonce(buf, nonce);
    ghost var whole := buf[..16];
    assert buf[..14] == whole[..14];
    PutLength(buf, 14, ByteOf(payloadLen / 256), ByteOf(payloadLen));
  }

  method SetFlags(buf: array<bv8>, assocLen: nat, macLen: nat, nonceLen: nat)
    requires buf.Length >= 16
    modifies buf
    ensures buf[0] == Flags(assocLen, macLen, nonceLen)
    ensures buf[16..] == old(buf[16..])
  {
    hide MacField, SizeField;
    buf[0] := (MacField(macLen) << 3) | SizeField(nonceLen);
    if assocLen > 0 {
      buf[0] := buf[0] + 0x40;
    }
  }

  // memcpy and memset at the end of what the buffer already holds.

  method Append(buf: array<bv8>, end: nat, src: seq<bv8>)
    requires end + |src| <= buf.Length
    modifies buf
    ensures buf[..end + |src|] == old(buf[..end]) + src
    ensures buf[end + |src|..] == old(buf[end + |src|..])
  {
    PutBytes(src, buf, end);
  }

  method AppendZeros(buf: array<bv8>, end: nat, n: nat)
    requires end + n <= buf.Length
    modifies buf
    ensures buf[..end + n] == old(buf[..end]) + Zeros(n)
    ensures buf[end + n..] == old(buf[end + n..])
  {
    FillZeros(buf, end, n);
  }

  method PutLength(buf: array<bv8>, end: nat, high: bv8, low: bv8)
    requires end + 2 <= buf.Length
    modifies buf
    ensures buf[..end + 2] == old(buf[..end]) + [high, low] && buf[end + 2..] == old(buf[end + 2..])
  {
    buf[end + 1] := low;
    buf[end] := high;
  }

  method FormatAssocData(buf: array<bv8>, start: nat, assoc: seq<bv8>) returns (end: nat)
    requires start % 16 == 0 && start + |AssocPart(assoc)| <= buf.Length
    modifies buf
    ensures end == start + |AssocPart(assoc)|
    ensures buf[..end] == old(buf[..start]) + AssocPart(assoc) && buf[end..] == old(buf[end..])
  {
    hide ByteOf;
    end := start;
    ghost var head, length := buf[..start], [ByteOf(|assoc| / 256), ByteOf(|assoc|)];
    ghost var rest := buf[start + 2..];
    PutLength(buf, end, ByteOf(|assoc| / 256), ByteOf(|assoc|));
    end := end + 2;
    assert buf[end..] == rest;
    Append(buf, end, assoc);
    end := end + |assoc|;
    assert buf[end..] == rest[|assoc|..];
    PadFromAligned(start, 2 + |assoc|);
    var pad := 16 - end % 16;
    assert AssocPart(assoc) == length + assoc + Zeros(pad);
    hide *;
    assert buf[end + pad..] == buf[end..][pad..] == rest[|assoc| + pad..];
    AppendZeros(buf, end, pad);
    end := end + pad;
    Regroup(head, length, assoc, Zeros(pad));
  }

  lemma Regroup(a: seq<bv8>, b: seq<bv8>, c: seq<bv8>, d: seq<bv8>)
    ensures a + b + c + d == a + (b + c + d)
  {
  }

  method FormatPayloadData(buf: array<bv8>, start: nat, payload: seq<bv8>) returns (end: nat)
    requires start % 16 == 0 && start + |PayloadPart(payload)| <= buf.Length
    modifies buf
    ensures end == start + |PayloadPart(payload)|
    ensures buf[..end] == old(buf[..start]) + PayloadPart(payload) && buf[end..] == old(buf[end..])
  {
    end := start;
    ghost var head, rest := buf[..start], buf[start..];
    Append(buf, end, payload);
    end := end + |payload|;
    assert buf[end..] == rest[|payload|..];
    var pad := end % 16;
    if pad != 0 {
      pad := 16 - pad;
    }
    PadFromAligned(start, |payload|);
    assert pad == PayloadPad(|payload|);
    assert PayloadPart(payload) == payload + Zeros(pad);
    hide *;
    assert buf[end + pad..] == buf[end..][pad..] == rest[|payload| + pad..];
    AppendZeros(buf, end, pad);
    end := end + pad;
    RegroupTail(head, payload, Zeros(pad));
  }

  lemma RegroupTail(a: seq<bv8>, b: seq<bv8>, c: seq<bv8>)
    ensures (a + b) + c == a + (b + c)
  {
  }

  // The whole formatted buffer; the payload starts at the end of what is there.
  method FormatAll(buf: array<bv8>, nonce: seq<bv8>, macLen: nat, assoc: seq<bv8>, payload: seq<bv8>) returns (end: nat)
    requires |nonce| <= 15 && |Formatted(nonce, macLen, assoc, payload)| <= buf.Length
    modifies buf
    ensures end == |Formatted(nonce, macLen, assoc, payload)|
    ensures buf[..end] == Formatted(nonce, macLen, assoc, payload)
  {
    hide FirstBlock, AssocPart, PayloadPart;
    assert |AssocPart(assoc)| % 16 == 0 by { AssocPartAligned(assoc); }
    PrepareFirstFormatBlk(buf, |assoc|, |payload|, macLen, nonce);
    end := 16;
    end := FormatAssocData(buf, end, assoc);
    end := FormatPayloadData(buf, end, payload);
  }

  lemma AssocPartAligned(assoc: seq<bv8>)
    ensures |AssocPart(assoc)| % 16 == 0
  {
    hide ByteOf;
    PadAligns(2 + |assoc|);
  }

  lemma PadAligns(n: nat)
    ensures (n + (16 - n % 16)) % 16 == 0
  {
  }

  lemma PadFromAligned(start: nat, n: nat)
    requires start % 16 == 0
    ensures (start + n) % 16 == n % 16
  {
  }

  // increment_iv on the counting part of a counter block.
  method IncrementCounter(iv: array<bv8>, counterSize: int)
    requires iv.Length == 16 && counterSize <= 16
    modifies iv
    ensures iv[..] == Incremented(old(iv[..]), counterSize)
  {
    hide BigEndian, ToBigEndian, Pow256;
    ghost var before := iv[..];
    IncrementIv(iv, counterSize);
    if counterSize > 0 {
      ghost var first := 16 - counterSize;
      assert before[first..] == old(iv[first..]) && before[..first] == old(iv[..first]);
      NumberDeterminesBytes(iv[first..], BigEndian(before[first..]) + 1);
      assert iv[..] == iv[..first] + iv[first..];
    }
  }

  lemma NumberDeterminesBytes(s: seq<bv8>, n: nat)
    requires BigEndian(s) == n % Pow256(|s|)
    ensures s == ToBigEndian(n, |s|)
  {
    BytesOfNumber(s);
    NumberOfBytes(n, |s|);
    BytesOfNumber(ToBigEndian(n, |s|));
  }

  // ---- Encryption ----

  predicate LegalMacLength(n: nat) {
    n == 4 || n == 6 || n == 8 || n == 10 || n == 12 || n == 14 || n == 16
  }

  // The words of `w` that aes_key_setup has written; for an unknown key size it writes none and
  // the rounds read whatever is there.
  function WrittenWords(w: seq<bv32>, keysize: int): (key: seq<bv32>)
    requires |w| == 60
    ensures EncryptsWith(key, keysize)
  {
    if KeyWords(keysize) != 0 then w[..ScheduleLength(keysize)] else w
  }

  method SetUpKey(keyStr: seq<bv8>, keysize: int) returns (key: seq<bv32>)
    requires 4 * KeyWords(keysize) <= |keyStr|
    ensures EncryptsWith(key, keysize)
    ensures KeyWords(keysize) != 0 ==> key == KeySchedule(keyStr, keysize)
  {
    hide KeySchedule, IsSchedule;
    var w := new bv32[60];
    AesKeySetup(keyStr, w, keysize);
    key := WrittenWords(w[..], keysize);
    if KeyWords(keysize) != 0 {
      assert key == w[..ScheduleLength(keysize)];
      ScheduleIsUnique(key, keyStr, keysize);
    }
  }

  // The MAC of a message, as both directions compute it: the message is formatted into `buf` and
  // the CBC-MAC of the buffer, with an IV of zeros, goes to `mac`.
  method ComputeMac(buf: array<bv8>, mac: array<bv8>, nonce: seq<bv8>, macLen: nat, assoc: seq<bv8>, payload: seq<bv8>,
                    key: seq<bv32>, keysize: int)
    requires |nonce| <= 15 && macLen <= 16 && |Formatted(nonce, macLen, assoc, payload)| <= buf.Length
    requires mac.Length == 16 && buf != mac && EncryptsWith(key, keysize)
    modifies buf, mac
    ensures mac[..macLen] == Mac(nonce, macLen, assoc, payload, EncryptWith(key, keysize))
  {
    hide Formatted, EncryptWith, CbcMac;
    FormattedLengthIs(nonce, macLen, assoc, payload);
    var endOfBuf := FormatAll(buf, nonce, macLen, assoc, payload);
    var ok := AesEncryptCbcMac(buf, endOfBuf, mac, key, keysize, Zeros(16));
    assert mac[..macLen] == mac[..16][..macLen];
  }

  // The counter that the payload is encrypted with.
  method PreparePayloadCounter(counter: array<bv8>, nonce: seq<bv8>, macLen: nat) returns (tempIv: array<bv8>)
    requires counter.Length == 16 && |nonce| <= 15 && macLen <= 16 && counter[..] == CounterBlock(nonce)
    ensures fresh(tempIv) && tempIv.Length == 16 && tempIv[..] == PayloadCounter(nonce, macLen)
  {
    hide CounterBlock, Incremented;
    tempIv := new bv8[16];
    CopyBytes(counter, 0, tempIv, 0, 16);
    assert counter[0..16] == counter[..];
    assert tempIv[..] == counter[..];
    IncrementCounter(tempIv, 15 - macLen);
  }

  // The payload and the MAC behind it are encrypted in place, each with its own counter.
  method EncryptBothParts(out: array<bv8>, ghost payload: seq<bv8>, ghost mac: seq<bv8>, n: nat, m: nat,
                          key: seq<bv32>, keysize: int, iv: Block, counter: Block)
    requires n == |payload| && m == |mac| && n + m <= out.Length && EncryptsWith(key, keysize)
    requires out[..n + m] == payload + mac
    modifies out
    ensures out[..n + m] == CtrEncrypted(payload, iv, EncryptWith(key, keysize)) +
                            CtrEncrypted(mac, counter, EncryptWith(key, keysize))
    ensures out[n + m..] == old(out[n + m..])
  {
    hide *;
    ghost var tail := out[n + m..];
    assert out[0..0 + n] == out[..n + m][..n] == payload && out[n..n + m] == out[..n + m][n..] == mac;
    AesEncryptCtr(out, 0, n, out, 0, key, keysize, iv);
    ghost var first := CtrEncrypted(payload, iv, EncryptWith(key, keysize));
    assert out[..n] == first && out[n..n + m] == mac && out[n + m..] == tail;
    AesEncryptCtr(out, n, m, out, n, key, keysize, counter);
  }

  // aes_encrypt_ccm after its checks.
  method EncryptInto(payload: seq<bv8>, assoc: seq<bv8>, nonce: seq<bv8>, out: array<bv8>, macLen: nat,
                     key: seq<bv32>, keysize: int)
    requires |nonce| <= 15 && macLen <= 16 && |payload| + macLen <= out.Length && EncryptsWith(key, keysize)
    modifies out
    ensures out[..|payload| + macLen] == CcmEncrypted(nonce, macLen, assoc, payload, EncryptWith(key, keysize))
    ensures out[|payload| + macLen..] == old(out[|payload| + macLen..])
  {
    hide EncryptWith, EncryptsWith, CtrEncrypted, Mac, PayloadCounter, CounterBlock, Formatted, FormattedLength;
    var buf := new bv8[|payload| + |assoc| + 49];
    FormattedLengthIs(nonce, macLen, assoc, payload);
    var mac, counter := new bv8[16], new bv8[16];
    PrepareFirstCtrBlk(counter, nonce);
    ComputeMac(buf, mac, nonce, macLen, assoc, payload, key, keysize);
    var code := mac[..macLen];
    ghost var rest := out[|payload|..];
    assert rest[macLen..] == out[|payload| + macLen..];
    Append(out, 0, payload);
    assert out[..|payload|] == payload && out[|payload|..] == rest;
    assert out[|payload| + macLen..] == out[|payload|..][macLen..] == rest[macLen..];
    Append(out, |payload|, code);
    var tempIv := PreparePayloadCounter(counter, nonce, macLen);
    EncryptBothParts(out, payload, code, |payload|, macLen, key, keysize, tempIv[..], counter[..]);
  }

  // aes_encrypt_ccm. `mallocOk` is whether the buffer can be allocated. The buffer here has one byte
  // more than the source allocates, see FormattedLengthIs. The key words are a ghost result: for a key
  // size that the key setup does not know they are whatever the array held.
  method AesEncryptCcm(payload: seq<bv8>, assoc: seq<bv8>, nonce: seq<bv8>, out: array<bv8>, macLen: nat,
                       keyStr: seq<bv8>, keysize: int, mallocOk: bool)
    returns (ok: bool, outLen: nat, ghost key: seq<bv32>)
    requires |payload| < 0x8000_0000 && 4 * KeyWords(keysize) <= |keyStr|
    requires LegalMacLength(macLen) ==> |payload| + macLen <= out.Length
    modifies out
    ensures ok <==> LegalMacLength(macLen) && 7 <= |nonce| <= 13 && |assoc| <= 32768 && mallocOk
    ensures !ok ==> out[..] == old(out[..])
    ensures ok ==> outLen == |payload| + macLen && out[outLen..] == old(out[outLen..])
    ensures ok ==> EncryptsWith(key, keysize) && (KeyWords(keysize) != 0 ==> key == KeySchedule(keyStr, keysize))
    ensures ok ==> out[..outLen] == CcmEncrypted(nonce, macLen, assoc, payload, EncryptWith(key, keysize))
  {
    hide EncryptWith, EncryptsWith, CcmEncrypted, KeySchedule, KeyWords;
    ok, outLen, key := false, 0, [];
    if !LegalMacLength(macLen) {
      return;
    }
    if |nonce| < 7 || |nonce| > 13 {
      return;
    }
    if |assoc| > 32768 {
      return;
    }
    if !mallocOk {
      return;
    }
    var words := SetUpKey(keyStr, keysize);
    EncryptInto(payload, assoc, nonce, out, macLen, words, keysize);
    ok, outLen, key := true, |payload| + macLen, words;
  }

  // ---- Decryption ----

  // The MAC in the ciphertext is decrypted in place and compared with the MAC of the payload.
  method CheckMac(buf: array<bv8>, mac: array<bv8>, macBuf: array<bv8>, nonce: seq<bv8>, macLen: nat, assoc: seq<bv8>,
                  payload: seq<bv8>, key: seq<bv32>, keysize: int, counter: Block)
    returns (auth: bool)
    requires |nonce| <= 15 && macLen <= 16 && |Formatted(nonce, macLen, assoc, payload)| <= buf.Length
    requires mac.Length == 16 && macBuf.Length == 16 && EncryptsWith(key, keysize)
    requires buf != mac && buf != macBuf && mac != macBuf
    modifies buf, mac, macBuf
    ensures auth <==> CtrEncrypted(old(mac[0..0 + macLen]), counter, EncryptWith(key, keysize)) ==
                      Mac(nonce, macLen, assoc, payload, EncryptWith(key, keysize))
  {
    hide EncryptWith, CtrEncrypted, Mac, Formatted;
    AesDecryptCtr(mac, 0, macLen, mac, 0, key, keysize, counter);
    ghost var received := mac[..macLen];
    ComputeMac(buf, macBuf, nonce, macLen, assoc, payload, key, keysize);
    assert mac[..macLen] == received;
    auth := mac[..macLen] == macBuf[..macLen];
  }

  // The payload is erased if the MAC is wrong.
  method EraseUnlessAuthentic(plaintext: array<bv8>, n: nat, mac: array<bv8>, nonce: seq<bv8>, macLen: nat,
                              assoc: seq<bv8>, key: seq<bv32>, keysize: int, counter: Block)
    returns (auth: bool)
    requires |nonce| <= 15 && macLen <= 16 && n <= plaintext.Length
    requires mac.Length == 16 && mac != plaintext && EncryptsWith(key, keysize)
    modifies plaintext, mac
    ensures auth <==> CtrEncrypted(old(mac[0..0 + macLen]), counter, EncryptWith(key, keysize)) ==
                      Mac(nonce, macLen, assoc, old(plaintext[..n]), EncryptWith(key, keysize))
    ensures plaintext[..n] == if auth then old(plaintext[..n]) else Zeros(n)
    ensures plaintext[n..] == old(plaintext[n..])
  {
    hide *;
    var buf, macBuf := new bv8[|assoc| + n + 49], new bv8[16];
    FormattedLengthIs(nonce, macLen, assoc, plaintext[..n]);
    auth := CheckMac(buf, mac, macBuf, nonce, macLen, assoc, plaintext[..n], key, keysize, counter);
    if !auth {
      AppendZeros(plaintext, 0, n);
      assert plaintext[..0 + n] == old(plaintext[..0]) + Zeros(n) == Zeros(n);
    }
  }

  // The payload of the ciphertext is copied and decrypted in place.
  method DecryptPayload(payload: seq<bv8>, plaintext: array<bv8>, key: seq<bv32>, keysize: int, iv: Block)
    requires |payload| <= plaintext.Length && EncryptsWith(key, keysize)
    modifies plaintext
    ensures plaintext[..|payload|] == CtrEncrypted(payload, iv, EncryptWith(key, keysize))
    ensures plaintext[|payload|..] == old(plaintext[|payload|..])
  {
    hide *;
    var n := |payload|;
    ghost var tail := plaintext[n..];
    Append(plaintext, 0, payload);
    assert plaintext[0..0 + n] == payload && plaintext[n..] == tail;
    AesDecryptCtr(plaintext, 0, n, plaintext, 0, key, keysize, iv);
    assert plaintext[n..] == tail;
  }

  // aes_decrypt_ccm after its checks.
  method DecryptInto(ciphertext: seq<bv8>, assoc: seq<bv8>, nonce: seq<bv8>, plaintext: array<bv8>, macLen: nat,
                     check: bool, key: seq<bv32>, keysize: int)
    returns (auth: bool)
    requires |nonce| <= 15 && macLen <= 16 && macLen <= |ciphertext| && EncryptsWith(key, keysize)
    requires |ciphertext| - macLen <= plaintext.Length
    modifies plaintext
    ensures var e, n := EncryptWith(key, keysize), |ciphertext| - macLen;
            && plaintext[..n] == CcmDecrypted(nonce, macLen, assoc, ciphertext, check, e)
            && plaintext[n..] == old(plaintext[n..])
            && (check ==> (auth <==> Authentic(nonce, macLen, assoc, ciphertext, e)))
  {
    hide EncryptWith, EncryptsWith, CtrEncrypted, Mac, PayloadCounter, CounterBlock;
    auth := false;
    var n := |ciphertext| - macLen;
    var payload, code := ciphertext[..n], ciphertext[n..];
    var mac, counter := new bv8[16], new bv8[16];
    Append(mac, 0, code);
    PrepareFirstCtrBlk(counter, nonce);
    var tempIv := PreparePayloadCounter(counter, nonce, macLen);
    DecryptPayload(payload, plaintext, key, keysize, tempIv[..]);
    assert mac[0..0 + macLen] == code;
    if check {
      auth := EraseUnlessAuthentic(plaintext, n, mac, nonce, macLen, assoc, key, keysize, counter[..]);
    }
  }

  // aes_decrypt_ccm. `check` is whether `mac_auth` is not null; only then does `auth` mean anything.
  // A ciphertext that is not longer than the MAC is refused.
  method AesDecryptCcm(ciphertext: seq<bv8>, assoc: seq<bv8>, nonce: seq<bv8>, plaintext: array<bv8>, macLen: nat,
                       check: bool, keyStr: seq<bv8>, keysize: int, mallocOk: bool)
    returns (ok: bool, plaintextLen: nat, auth: bool, ghost key: seq<bv32>)
    requires |ciphertext| < 0x8000_0000 && 4 * KeyWords(keysize) <= |keyStr|
    requires macLen < |ciphertext| ==>
               macLen <= 16 && |nonce| <= 15 && |ciphertext| - macLen <= plaintext.Length
    modifies plaintext
    ensures ok <==> macLen < |ciphertext| && mallocOk
    ensures !ok ==> plaintext[..] == old(plaintext[..])
    ensures ok ==> plaintextLen == |ciphertext| - macLen && plaintext[plaintextLen..] == old(plaintext[plaintextLen..])
    ensures ok ==> EncryptsWith(key, keysize) && (KeyWords(keysize) != 0 ==> key == KeySchedule(keyStr, keysize))
    ensures ok ==>
              var e := EncryptWith(key, keysize);
              && plaintext[..plaintextLen] == CcmDecrypted(nonce, macLen, assoc, ciphertext, check, e)
              && (check ==> (auth <==> Authentic(nonce, macLen, assoc, ciphertext, e)))
  {
    hide EncryptWith, EncryptsWith, CcmDecrypted, Authentic, KeySchedule, KeyWords;
    ok, plaintextLen, auth, key := false, 0, false, [];
    if |ciphertext| <= macLen {
      return;
    }
    if !mallocOk {
      return;
    }
    var words := SetUpKey(keyStr, keysize);
    auth := DecryptInto(ciphertext, assoc, nonce, plaintext, macLen, check, words, keysize);
    ok, plaintextLen, key := true, |ciphertext| - macLen, words;
  }

  // ---- The two functions together ----

  // What aes_encrypt_ccm has made, aes_decrypt_ccm accepts if and only if the payload is not empty;
  // then it gives the payload back and finds it authentic.
  method ThereAndBack(payload: seq<bv8>, assoc: seq<bv8>, nonce: seq<bv8>, macLen: nat, keyStr: seq<bv8>, keysize: int)
    returns (ok: bool, back: seq<bv8>, auth: bool)
    requires LegalMacLength(macLen) && 7 <= |nonce| <= 13 && |assoc| <= 32768
    requires |payload| + macLen < 0x8000_0000
    requires KeyWords(keysize) != 0 && 4 * KeyWords(keysize) <= |keyStr|
    ensures ok <==> payload != []
    ensures ok ==> back == payload && auth
  {
    hide EncryptWith, EncryptsWith, CcmEncrypted, CcmDecrypted, Authentic, KeySchedule, KeyWords;
    var out := new bv8[|payload| + macLen];
    var sent, outLen;
    ghost var key;
    sent, outLen, key := AesEncryptCcm(payload, assoc, nonce, out, macLen, keyStr, keysize, true);
    var ciphertext := out[..outLen];
    var plaintext := new bv8[|payload|];
    var plaintextLen;
    ghost var key';
    ok, plaintextLen, auth, key' :=
      AesDecryptCcm(ciphertext, assoc, nonce, plaintext, macLen, true, keyStr, keysize, true);
    back := plaintext[..];
    if ok {
      CcmRoundTrip(nonce, macLen, assoc, payload, true, EncryptWith(key, keysize));
      assert plaintext[..plaintextLen] == plaintext[..];
    }
  }
}
