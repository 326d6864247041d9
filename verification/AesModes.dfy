/**
 CTR and CBC as `examples/aes_encrypt/aes.c` performs them on byte arrays, over messages of any
 length, each method against the mode it computes.
 */
module AesModes {
  import opened AesField
  import opened AesCipher
  import opened BlockModes
  import opened ByteStrings

  // ---- CTR ----

  // increment_iv: the last `counterSize` bytes are incremented as a big-endian number; a size of
  // zero or less leaves the block alone.
  method IncrementIv(iv: array<bv8>, counterSize: int)
    requires iv.Length == 16 && counterSize <= 16
    modifies iv
    ensures counterSize <= 0 ==> iv[..] == old(iv[..])
    ensures counterSize > 0 ==>
              && iv[..16 - counterSize] == old(iv[..16 - counterSize])
              && BigEndian(iv[16 - counterSize..]) ==
                 (BigEndian(old(iv[16 - counterSize..])) + 1) % Pow256(counterSize)
  {
    hide BigEndian, Pow256;
    ghost var before := iv[..];
    var idx := 15;
    while idx >= 16 - counterSize
      invariant idx <= 15 && (counterSize > 0 ==> 16 - counterSize <= idx)
      invariant idx == 15 || counterSize > 0
      invariant forall i | 0 <= i <= idx :: iv[i] == before[i]
      invariant forall i | idx < i < 16 :: iv[i] == 0 && before[i] == 0xff
    {
      iv[idx] := iv[idx] + 1;
      if iv[idx] != 0 || idx == 16 - counterSize {
        break;
      }
      idx := idx - 1;
    }
    if counterSize > 0 {
      ghost var first, after := 16 - counterSize, iv[..];
      IncrementedFrom(before, after, first, idx);
      hide *;
      assert iv[..first] == after[..first] && iv[first..] == after[first..];
      assert old(iv[..first]) == before[..first] && old(iv[first..]) == before[first..];
    }
  }

  // The carry has come down to `idx` and stops there.
  lemma IncrementedFrom(before: seq<bv8>, after: seq<bv8>, first: nat, idx: nat)
    requires |before| == |after| && first <= idx < |before|
    requires forall i | 0 <= i < idx :: after[i] == before[i]
    requires after[idx] == before[idx] + 1 && (before[idx] != 0xff || idx == first)
    requires forall i | idx < i < |before| :: before[i] == 0xff && after[i] == 0
    ensures after[..first] == before[..first]
    ensures BigEndian(after[first..]) == (BigEndian(before[first..]) + 1) % Pow256(|before| - first)
  {
    hide BigEndian, Pow256;
    CarryStops(before[first..], after[first..], idx - first);
  }

  // A whole block as the counter.
  method AdvanceCounter(ivBuf: array<bv8>, ghost iv: Block, ghost n: nat)
    requires ivBuf.Length == 16 && ivBuf[..] == Counter(iv, n)
    modifies ivBuf
    ensures ivBuf[..] == Counter(iv, n + 1)
  {
    hide Counter, BigEndian, Pow256;
    assert ivBuf[16 - 16..] == ivBuf[..];
    IncrementIv(ivBuf, 16);
    assert ivBuf[16 - 16..] == ivBuf[..];
    CounterStep(iv, n, ivBuf[..]);
  }

  // Where the encryption stands: the first `done` bytes from `at` on are encrypted, the rest is as before.
  ghost predicate CtrProgress(now: seq<bv8>, before: seq<bv8>, at: nat, done: nat, iv: Block, e: Block -> Block)
    requires at + done <= |before|
  {
    now == before[..at] + CtrEncrypted(before[at..at + done], iv, e) + before[at + done..]
  }

  lemma CtrProgressStarts(before: seq<bv8>, at: nat, iv: Block, e: Block -> Block)
    requires at <= |before|
    ensures CtrProgress(before, before, at, 0, iv, e)
  {
    hide Add, Keystream;
  }

  lemma CtrProgresses(now: seq<bv8>, before: seq<bv8>, at: nat, done: nat, n: nat, iv: Block, e: Block -> Block)
    requires at + done + n <= |before| == |now|
    requires done % 16 == 0 && n <= 16
    requires CtrProgress(now, before, at, done, iv, e)
    ensures CtrProgress(
              now[..at + done] + AddBytes(now[at + done..at + done + n], e(Counter(iv, done / 16))[..n]) +
              now[at + done + n..], before, at, done + n, iv, e)
  {
    hide Counter, CtrEncrypted, AddBytes;
    var data, pad := before[at..at + done + n], e(Counter(iv, done / 16))[..n];
    CtrExtends(data, done, n, iv, e);
    assert data[..done] == before[at..at + done] && data[..done + n] == data;
    assert data[done..done + n] == before[at + done..at + done + n];
    var a, c, r := before[..at], CtrEncrypted(before[at..at + done], iv, e), before[at + done..];
    SplitAfter(a, c, r, n);
    assert r[..n] == before[at + done..at + done + n] && r[n..] == before[at + done + n..];
    var x := AddBytes(r[..n], pad);
    assert CtrEncrypted(data, iv, e) == c + x;
    Regrouped(a, c, x, r[n..]);
  }

  lemma Regrouped(a: seq<bv8>, c: seq<bv8>, x: seq<bv8>, r: seq<bv8>)
    ensures (a + c) + x + r == a + (c + x) + r
  {
  }

  lemma SplitAfter(a: seq<bv8>, c: seq<bv8>, r: seq<bv8>, n: nat)
    requires n <= |r|
    ensures var s := a + c + r;
            && s[..|a| + |c|] == a + c && s[|a| + |c|..|a| + |c| + n] == r[..n] && s[|a| + |c| + n..] == r[n..]
  {
  }

  // One pass of aes_encrypt_ctr: the encrypted counter is added to the next `n` bytes.
  method CtrPass(ivBuf: array<bv8>, outBuf: array<bv8>, out: array<bv8>, at: nat, done: nat, n: nat,
                 key: seq<bv32>, keysize: int, ghost before: seq<bv8>, ghost iv: Block)
    requires EncryptsWith(key, keysize)
    requires ivBuf.Length == outBuf.Length == 16 && n <= 16 && done % 16 == 0
    requires at + done + n <= out.Length == |before|
    requires outBuf != ivBuf && outBuf != out && ivBuf != out
    requires ivBuf[..] == Counter(iv, done / 16)
    requires CtrProgress(out[..], before, at, done, iv, EncryptWith(key, keysize))
    modifies outBuf, out
    ensures CtrProgress(out[..], before, at, done + n, iv, EncryptWith(key, keysize))
  {
    hide Add, EncryptBlock, Counter, CtrProgress, AddBytes;
    ghost var now := out[..];
    AesEncrypt(ivBuf, outBuf, key, keysize);
    assert ivBuf[..16] == ivBuf[..];
    XorBuf(outBuf, out, at + done, n);
    assert outBuf[..n] == outBuf[..16][..n];
    CtrProgresses(now, before, at, done, n, iv, EncryptWith(key, keysize));
  }

  // aes_encrypt_ctr, in place (`input` is `out`) or not, for any length.
  method AesEncryptCtr(input: array<bv8>, inAt: nat, len: nat, out: array<bv8>, outAt: nat,
                       key: seq<bv32>, keysize: int, iv: Block)
    requires inAt + len <= input.Length && outAt + len <= out.Length
    requires input == out ==> inAt == outAt
    requires EncryptsWith(key, keysize)
    modifies out
    ensures out[..] == old(out[..outAt]) +
                       CtrEncrypted(old(input[inAt..inAt + len]), iv, EncryptWith(key, keysize)) +
                       old(out[outAt + len..])
  {
    hide EncryptWith, CtrEncrypted, CtrProgress, Counter;
    if input != out {
      CopyBytes(input, inAt, out, outAt, len);
    }
    ghost var before := out[..];
    assert before[outAt..outAt + len] == old(input[inAt..inAt + len]);
    assert before[..outAt] == old(out[..outAt]) && before[outAt + len..] == old(out[outAt + len..]);

    var ivBuf := new bv8[16];
    PutBytes(iv, ivBuf, 0);
    var outBuf := new bv8[16];
    var idx := 0;
    CounterStart(iv);
    assert ivBuf[..] == iv;
    ghost var e := EncryptWith(key, keysize);
    CtrProgressStarts(before, outAt, iv, e);

    if len > 16 {
      var lastBlockLength := len - 16;
      while idx < lastBlockLength
        invariant idx % 16 == 0 && idx < lastBlockLength + 16
        invariant ivBuf[..] == Counter(iv, idx / 16)
        invariant CtrProgress(out[..], before, outAt, idx, iv, e)
      {
        CtrPass(ivBuf, outBuf, out, outAt, idx, 16, key, keysize, before, iv);
        AdvanceCounter(ivBuf, iv, idx / 16);
        idx := idx + 16;
      }
    }

    CtrPass(ivBuf, outBuf, out, outAt, idx, len - idx, key, keysize, before, iv);
    CtrProgressEnds(out[..], before, outAt, len, iv, e);
  }

  lemma CtrProgressEnds(now: seq<bv8>, before: seq<bv8>, at: nat, done: nat, iv: Block, e: Block -> Block)
    requires at + done <= |before| && CtrProgress(now, before, at, done, iv, e)
    ensures now == before[..at] + CtrEncrypted(before[at..at + done], iv, e) + before[at + done..]
  {
  }

  // aes_decrypt_ctr: CTR encryption is its own inverse.
  method AesDecryptCtr(input: array<bv8>, inAt: nat, len: nat, out: array<bv8>, outAt: nat,
                       key: seq<bv32>, keysize: int, iv: Block)
    requires inAt + len <= input.Length && outAt + len <= out.Length
    requires input == out ==> inAt == outAt
    requires EncryptsWith(key, keysize)
    modifies out
    ensures out[..] == old(out[..outAt]) +
                       CtrEncrypted(old(input[inAt..inAt + len]), iv, EncryptWith(key, keysize)) +
                       old(out[outAt + len..])
  {
    AesEncryptCtr(input, inAt, len, out, outAt, key, keysize, iv);
  }

  // ---- CBC ----

  // The block at `at` is copied and chained.
  method LoadLink(input: array<bv8>, at: nat, bufIn: array<bv8>, ivBuf: array<bv8>)
    requires at + 16 <= input.Length && bufIn.Length == ivBuf.Length == 16
    requires bufIn != ivBuf && input != bufIn
    modifies bufIn
    ensures bufIn[..] == AddBytes(input[at..at + 16], ivBuf[..])
  {
    hide Add, AddBytes;
    CopyBytes(input, at, bufIn, 0, 16);
    ghost var block, chain := input[at..at + 16], ivBuf[..];
    assert bufIn[0..0 + 16] == block && ivBuf[..16] == chain;
    XorBuf(ivBuf, bufIn, 0, 16);
    assert bufIn[..] == [] + AddBytes(block, chain) + [] == AddBytes(block, chain);
    assert input[at..at + 16] == block && ivBuf[..] == chain;
  }

  // The block at `at` is copied, chained and encrypted, as in aes_encrypt_cbc and aes_encrypt_cbc_mac.
  method EncryptLink(input: array<bv8>, at: nat, bufIn: array<bv8>, bufOut: array<bv8>, ivBuf: array<bv8>,
                     key: seq<bv32>, keysize: int)
    requires EncryptsWith(key, keysize) && at + 16 <= input.Length
    requires bufIn.Length == bufOut.Length == ivBuf.Length == 16
    requires bufIn != bufOut && bufIn != ivBuf && bufOut != ivBuf
    requires input != bufIn && input != bufOut && input != ivBuf
    modifies bufIn, bufOut
    ensures bufOut[..] == EncryptWith(key, keysize)(AddBytes(input[at..at + 16], ivBuf[..]))
  {
    hide EncryptBlock, Add, AddBytes;
    LoadLink(input, at, bufIn, ivBuf);
    AesEncrypt(bufIn, bufOut, key, keysize);
    assert bufIn[..16] == bufIn[..] && bufOut[..16] == bufOut[..];
  }

  // The block at `at` is copied, decrypted and unchained, as in aes_decrypt_cbc.
  method DecryptLink(input: array<bv8>, at: nat, bufIn: array<bv8>, bufOut: array<bv8>, ivBuf: array<bv8>,
                     key: seq<bv32>, keysize: int)
    requires DecryptsWith(key, keysize) && at + 16 <= input.Length
    requires bufIn.Length == bufOut.Length == ivBuf.Length == 16
    requires bufIn != bufOut && bufIn != ivBuf && bufOut != ivBuf
    requires input != bufIn && input != bufOut && input != ivBuf
    modifies bufIn, bufOut
    ensures bufIn[..] == input[at..at + 16]
    ensures bufOut[..] == AddBytes(DecryptWith(key, keysize)(input[at..at + 16]), ivBuf[..])
  {
    hide DecryptBlock, Add;
    CopyBytes(input, at, bufIn, 0, 16);
    assert bufIn[..] == bufIn[0..16] == input[at..at + 16];
    AesDecrypt(bufIn, bufOut, key, keysize);
    assert bufIn[..16] == bufIn[..] && bufOut[..16] == bufOut[..];
    XorBuf(ivBuf, bufOut, 0, 16);
    assert ivBuf[..16] == ivBuf[..] && bufOut[0..16] == bufOut[..];
  }

  method CopyBlock(src: array<bv8>, dst: array<bv8>, at: nat)
    requires src != dst && src.Length == 16 && at + 16 <= dst.Length
    modifies dst
    ensures dst[at..at + 16] == src[..]
    ensures forall k | 0 <= k < at || at + 16 <= k < dst.Length :: dst[k] == old(dst[k])
  {
    ghost var before := dst[..];
    CopyBytes(src, 0, dst, at, 16);
    assert src[0..16] == src[..];
    assert dst[..] == before[..at] + src[..] + before[at + 16..];
    assert dst[at..at + 16] == src[..];
    forall k | 0 <= k < at || at + 16 <= k < dst.Length ensures dst[k] == before[k] {
      assert dst[k] == dst[..][k];
    }
  }

  // Where the encryption stands after `done` bytes: what is still to come completes the message.
  ghost predicate CbcProgress(now: seq<bv8>, data: seq<bv8>, done: nat, chain: Block, iv: Block, e: Block -> Block)
    requires |data| % 16 == done % 16 == 0 && done <= |data| <= |now|
  {
    now[..done] + CbcEncrypted(data[done..], chain, e) == CbcEncrypted(data, iv, e)
  }

  lemma CbcProgresses(now: seq<bv8>, next: seq<bv8>, data: seq<bv8>, done: nat, chain: Block, c: Block,
                      iv: Block, e: Block -> Block)
    requires |data| % 16 == done % 16 == 0 && done + 16 <= |data| <= |now| == |next|
    requires CbcProgress(now, data, done, chain, iv, e)
    requires c == e(AddBytes(data[done..done + 16], chain))
    requires next[..done] == now[..done] && next[done..done + 16] == c
    ensures CbcProgress(next, data, done + 16, c, iv, e)
  {
    hide Add, AddBytes;
    var rest := data[done..];
    assert rest[..16] == data[done..done + 16] && rest[16..] == data[done + 16..];
    assert CbcEncrypted(rest, chain, e) == c + CbcEncrypted(rest[16..], c, e);
    assert next[..done + 16] == now[..done] + c;
  }

  // aes_encrypt_cbc; `input` and `out` may be the same array. A length that is not a multiple of
  // the block size is refused and changes nothing.
  method AesEncryptCbc(input: array<bv8>, len: nat, out: array<bv8>, key: seq<bv32>, keysize: int, iv: Block)
    returns (ok: bool)
    requires len <= input.Length && len <= out.Length && EncryptsWith(key, keysize)
    modifies out
    ensures ok <==> len % 16 == 0
    ensures ok ==> out[..len] == CbcEncrypted(old(input[..len]), iv, EncryptWith(key, keysize))
    ensures out[len..] == old(out[len..]) && (!ok ==> out[..] == old(out[..]))
  {
    hide *;
    var bufIn, bufOut, ivBuf := new bv8[16], new bv8[16], new bv8[16];
    if len % 16 != 0 {
      return false;
    }
    ghost var data, e := input[..len], EncryptWith(key, keysize);
    var blocks := len / 16;
    PutBytes(iv, ivBuf, 0);
    assert ivBuf[..] == iv;
    CbcProgressStarts(out[..], data, iv, e);
    for idx := 0 to blocks
      invariant forall k | 16 * idx <= k < out.Length :: out[k] == old(out[k])
      invariant forall k | 16 * idx <= k < len :: input[k] == data[k]
      invariant CbcProgress(out[..], data, 16 * idx, ivBuf[..], iv, e)
    {
      ghost var now, chain := out[..], ivBuf[..];
      assert input[16 * idx..16 * idx + 16] == data[16 * idx..16 * idx + 16];
      EncryptLink(input, 16 * idx, bufIn, bufOut, ivBuf, key, keysize);
      CopyBlock(bufOut, out, 16 * idx);
      ghost var next := out[..];
      assert next[..16 * idx] == now[..16 * idx] && next[16 * idx..16 * idx + 16] == bufOut[..];
      CopyBlock(bufOut, ivBuf, 0);
      assert ivBuf[..] == ivBuf[0..0 + 16] == bufOut[..];
      CbcProgresses(now, next, data, 16 * idx, chain, bufOut[..], iv, e);
    }
    CbcProgressEnds(out[..], data, ivBuf[..], iv, e);
    return true;
  }

  lemma CbcProgressStarts(now: seq<bv8>, data: seq<bv8>, iv: Block, e: Block -> Block)
    requires |data| % 16 == 0 && |data| <= |now|
    ensures CbcProgress(now, data, 0, iv, iv, e)
  {
    assert data[0..] == data;
  }

  lemma CbcProgressEnds(now: seq<bv8>, data: seq<bv8>, chain: Block, iv: Block, e: Block -> Block)
    requires |data| % 16 == 0 && |data| <= |now|
    requires CbcProgress(now, data, |data|, chain, iv, e)
    ensures now[..|data|] == CbcEncrypted(data, iv, e)
  {
  }

  // aes_encrypt_cbc_mac: only the last block is kept. For an empty message the source copies a
  // block that it never wrote, so nothing is said about the output then.
  method AesEncryptCbcMac(input: array<bv8>, len: nat, out: array<bv8>, key: seq<bv32>, keysize: int, iv: Block)
    returns (ok: bool)
    requires len <= input.Length && out.Length >= 16 && EncryptsWith(key, keysize)
    modifies out
    ensures ok <==> len % 16 == 0
    ensures ok && len > 0 ==> out[..16] == CbcMac(old(input[..len]), iv, EncryptWith(key, keysize))
    ensures out[16..] == old(out[16..]) && (!ok ==> out[..] == old(out[..]))
  {
    hide EncryptWith, AddBytes, CbcMac;
    var bufIn, bufOut, ivBuf := new bv8[16], new bv8[16], new bv8[16];
    if len % 16 != 0 {
      return false;
    }
    ghost var data, e := input[..len], EncryptWith(key, keysize);
    var blocks := len / 16;
    PutBytes(iv, ivBuf, 0);
    assert ivBuf[..] == iv && data[0..] == data;
    for idx := 0 to blocks
      invariant out[..] == old(out[..]) && input[..len] == data
      invariant CbcMac(data[16 * idx..], ivBuf[..], e) == CbcMac(data, iv, e)
      invariant idx > 0 ==> bufOut[..] == ivBuf[..]
    {
      ghost var chain := ivBuf[..];
      assert input[16 * idx..16 * idx + 16] == input[..len][16 * idx..16 * idx + 16];
      EncryptLink(input, 16 * idx, bufIn, bufOut, ivBuf, key, keysize);
      MacStep(data, 16 * idx, chain, bufOut[..], e);
      CopyBlock(bufOut, ivBuf, 0);
      assert ivBuf[..] == ivBuf[0..0 + 16] == bufOut[..];
    }
    MacEnds(data, 16 * blocks, ivBuf[..], e);
    CopyBlock(bufOut, out, 0);
    assert out[0..0 + 16] == out[..16];
    return true;
  }

  lemma MacStep(data: seq<bv8>, done: nat, chain: Block, c: Block, e: Block -> Block)
    requires |data| % 16 == done % 16 == 0 && done + 16 <= |data|
    requires c == e(AddBytes(data[done..done + 16], chain))
    ensures CbcMac(data[done..], chain, e) == CbcMac(data[done + 16..], c, e)
  {
    hide Add, AddBytes;
    var rest := data[done..];
    assert rest[..16] == data[done..done + 16] && rest[16..] == data[done + 16..];
  }

  lemma MacEnds(data: seq<bv8>, done: nat, chain: Block, e: Block -> Block)
    requires done == |data|
    ensures CbcMac(data[done..], chain, e) == chain
  {
  }

  ghost predicate UncbcProgress(now: seq<bv8>, data: seq<bv8>, done: nat, chain: Block, iv: Block, d: Block -> Block)
    requires |data| % 16 == done % 16 == 0 && done <= |data| <= |now|
  {
    now[..done] + CbcDecrypted(data[done..], chain, d) == CbcDecrypted(data, iv, d)
  }

  lemma UncbcProgressStarts(now: seq<bv8>, data: seq<bv8>, iv: Block, d: Block -> Block)
    requires |data| % 16 == 0 && |data| <= |now|
    ensures UncbcProgress(now, data, 0, iv, iv, d)
  {
    assert data[0..] == data;
  }

  lemma UncbcProgressEnds(now: seq<bv8>, data: seq<bv8>, chain: Block, iv: Block, d: Block -> Block)
    requires |data| % 16 == 0 && |data| <= |now|
    requires UncbcProgress(now, data, |data|, chain, iv, d)
    ensures now[..|data|] == CbcDecrypted(data, iv, d)
  {
  }

  lemma UncbcProgresses(now: seq<bv8>, next: seq<bv8>, data: seq<bv8>, done: nat, chain: Block, c: Block,
                        iv: Block, d: Block -> Block)
    requires |data| % 16 == done % 16 == 0 && done + 16 <= |data| <= |now| == |next|
    requires UncbcProgress(now, data, done, chain, iv, d)
    requires c == data[done..done + 16]
    requires next[..done] == now[..done] && next[done..done + 16] == AddBytes(d(c), chain)
    ensures UncbcProgress(next, data, done + 16, c, iv, d)
  {
    hide Add, AddBytes;
    var rest := data[done..];
    assert rest[..16] == c && rest[16..] == data[done + 16..];
    assert CbcDecrypted(rest, chain, d) == AddBytes(d(c), chain) + CbcDecrypted(rest[16..], c, d);
    assert next[..done + 16] == now[..done] + AddBytes(d(c), chain);
  }

  // aes_decrypt_cbc; `input` and `out` may be the same array.
  method AesDecryptCbc(input: array<bv8>, len: nat, out: array<bv8>, key: seq<bv32>, keysize: int, iv: Block)
    returns (ok: bool)
    requires len <= input.Length && len <= out.Length && DecryptsWith(key, keysize)
    modifies out
    ensures ok <==> len % 16 == 0
    ensures ok ==> out[..len] == CbcDecrypted(old(input[..len]), iv, DecryptWith(key, keysize))
    ensures out[len..] == old(out[len..]) && (!ok ==> out[..] == old(out[..]))
  {
    hide *;
    var bufIn, bufOut, ivBuf := new bv8[16], new bv8[16], new bv8[16];
    if len % 16 != 0 {
      return false;
    }
    ghost var data, d := input[..len], DecryptWith(key, keysize);
    var blocks := len / 16;
    PutBytes(iv, ivBuf, 0);
    assert ivBuf[..] == iv;
    UncbcProgressStarts(out[..], data, iv, d);
    for idx := 0 to blocks
      invariant forall k | 16 * idx <= k < out.Length :: out[k] == old(out[k])
      invariant forall k | 16 * idx <= k < len :: input[k] == data[k]
      invariant UncbcProgress(out[..], data, 16 * idx, ivBuf[..], iv, d)
    {
      ghost var now, chain := out[..], ivBuf[..];
      assert input[16 * idx..16 * idx + 16] == data[16 * idx..16 * idx + 16];
      DecryptLink(input, 16 * idx, bufIn, bufOut, ivBuf, key, keysize);
      CopyBlock(bufOut, out, 16 * idx);
      ghost var next := out[..];
      assert next[..16 * idx] == now[..16 * idx] && next[16 * idx..16 * idx + 16] == bufOut[..];
      CopyBlock(bufIn, ivBuf, 0);
      assert ivBuf[..] == ivBuf[0..0 + 16] == bufIn[..];
      UncbcProgresses(now, next, data, 16 * idx, chain, bufIn[..], iv, d);
    }
    UncbcProgressEnds(out[..], data, ivBuf[..], iv, d);
    return true;
  }

  // What the API promises of the two: the inverse of CBC encryption restores any whole number of blocks.
  lemma AesCbcRoundTrip(data: seq<bv8>, iv: Block, key: seq<bv32>, keysize: int)
    requires |data| % 16 == 0
    requires EncryptsWith(key, keysize) && (keysize == 128 || keysize >= 192)
    ensures CbcDecrypted(CbcEncrypted(data, iv, EncryptWith(key, keysize)), iv, DecryptWith(key, keysize)) == data
  {
    hide EncryptBlock, DecryptBlock;
    forall b: Block
      ensures DecryptWith(key, keysize)(EncryptWith(key, keysize)(b)) == b
    {
      BlockRoundTrip(b, key, keysize);
    }
    CbcRoundTrip(data, iv, EncryptWith(key, keysize), DecryptWith(key, keysize));
  }
}
