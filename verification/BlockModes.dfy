/**
 The modes of operation as functions of a block cipher `e`: CBC and CTR (sections 6.2 and 6.5 of
 NIST SP 800-38A) and the CBC-MAC. What is proved here holds for every block cipher.
 */
module BlockModes {
  import opened Arithmetic
  import opened AesField
  import opened ByteStrings

  // ---- CBC ----

  // Block `i` of a message.
  function Chunk(data: seq<bv8>, i: nat): Block
    requires 16 * i + 16 <= |data|
  {
    data[16 * i..16 * i + 16]
  }

  function CbcEncrypted(data: seq<bv8>, iv: Block, e: Block -> Block): (r: seq<bv8>)
    requires |data| % 16 == 0
    ensures |r| == |data|
    decreases |data|
  {
    if |data| == 0 then [] else
      var c := e(AddBytes(data[..16], iv));
      c + CbcEncrypted(data[16..], c, e)
  }

  function CbcDecrypted(data: seq<bv8>, iv: Block, d: Block -> Block): (r: seq<bv8>)
    requires |data| % 16 == 0
    ensures |r| == |data|
    decreases |data|
  {
    if |data| == 0 then [] else
      AddBytes(d(data[..16]), iv) + CbcDecrypted(data[16..], data[..16], d)
  }

  // The chain value that is left after the last block.
  function CbcMac(data: seq<bv8>, iv: Block, e: Block -> Block): Block
    requires |data| % 16 == 0
    decreases |data|
  {
    if |data| == 0 then iv else CbcMac(data[16..], e(AddBytes(data[..16], iv)), e)
  }

  // The defining equation of CBC: each ciphertext block comes from the plaintext block and the
  // ciphertext block before it, the first one from the IV.
  lemma {:induction false} CbcEquation(data: seq<bv8>, iv: Block, e: Block -> Block, i: nat)
    requires |data| % 16 == 0 && 16 * i + 16 <= |data|
    ensures var c := CbcEncrypted(data, iv, e);
            Chunk(c, i) == e(AddBytes(Chunk(data, i), if i == 0 then iv else Chunk(c, i - 1)))
    decreases i
  {
    hide Add, AddBytes;
    if i > 0 {
      var first := e(AddBytes(data[..16], iv));
      CbcEquation(data[16..], first, e, i - 1);
      var c, rest: seq<bv8> := CbcEncrypted(data, iv, e), CbcEncrypted(data[16..], first, e);
      assert c == first + rest && c[16..] == rest;
      ChunkAfter(c, i);
      ChunkAfter(data, i);
      if i > 1 {
        ChunkAfter(c, i - 1);
      }
    }
  }

  // The same for decryption: each plaintext block is the inverse of its ciphertext block plus the
  // ciphertext block before it, whatever `d` is.
  lemma {:induction false} CbcInverseEquation(data: seq<bv8>, iv: Block, d: Block -> Block, i: nat)
    requires |data| % 16 == 0 && 16 * i + 16 <= |data|
    ensures Chunk(CbcDecrypted(data, iv, d), i) ==
            AddBytes(d(Chunk(data, i)), if i == 0 then iv else Chunk(data, i - 1))
    decreases i
  {
    hide Add, AddBytes;
    var first: Block := data[..16];
    var p, rest: seq<bv8> := CbcDecrypted(data, iv, d), CbcDecrypted(data[16..], first, d);
    assert p == AddBytes(d(first), iv) + rest;
    if i > 0 {
      CbcInverseEquation(data[16..], first, d, i - 1);
      assert p[16..] == rest;
      ChunkAfter(p, i);
      ChunkAfter(data, i);
      if i > 1 {
        ChunkAfter(data, i - 1);
      }
    }
  }

  lemma ChunkAfter(data: seq<bv8>, i: nat)
    requires 0 < i && 16 * i + 16 <= |data|
    ensures Chunk(data, i) == Chunk(data[16..], i - 1)
  {
    var at := 16 * (i - 1);
    assert at == 16 * i - 16;
    forall k | 0 <= k < 16
      ensures Chunk(data, i)[k] == Chunk(data[16..], i - 1)[k]
    {
      assert data[16..][at + k] == data[16 + at + k];
    }
  }

  // Decryption undoes encryption if `d` undoes `e`.
  lemma {:induction false} CbcRoundTrip(data: seq<bv8>, iv: Block, e: Block -> Block, d: Block -> Block)
    requires |data| % 16 == 0
    requires forall b: Block :: d(e(b)) == b
    ensures CbcDecrypted(CbcEncrypted(data, iv, e), iv, d) == data
    decreases |data|
  {
    hide Add;
    if |data| > 0 {
      var c := e(AddBytes(data[..16], iv));
      var rest: seq<bv8> := CbcEncrypted(data[16..], c, e);
      CbcRoundTrip(data[16..], c, e, d);
      AddBytesUndoesItself(data[..16], iv);
      assert (c + rest)[..16] == c && (c + rest)[16..] == rest;
      assert data == data[..16] + data[16..];
    }
  }

  // The MAC is the last block of the CBC encryption.
  lemma {:induction false} MacIsLastBlock(data: seq<bv8>, iv: Block, e: Block -> Block)
    requires |data| % 16 == 0 && |data| > 0
    ensures CbcMac(data, iv, e) == CbcEncrypted(data, iv, e)[|data| - 16..]
    decreases |data|
  {
    hide Add;
    var c := e(AddBytes(data[..16], iv));
    var rest: seq<bv8> := CbcEncrypted(data[16..], c, e);
    if |data| == 16 {
      assert rest == [] && data[16..] == [];
    } else {
      MacIsLastBlock(data[16..], c, e);
      assert (c + rest)[|data| - 16..] == rest[|data| - 32..];
    }
  }

  // ---- CTR ----

  // The counter block that lies `n` increments after `iv`, modulo 2^128.
  function Counter(iv: Block, n: nat): Block {
    ToBigEndian(BigEndian(iv) + n, 16)
  }

  // Byte `i` of the key stream: byte `i % 16` of the encryption of the `i / 16`-th counter.
  function Keystream(i: nat, iv: Block, e: Block -> Block): bv8 {
    e(Counter(iv, i / 16))[i % 16]
  }

  function CtrEncrypted(data: seq<bv8>, iv: Block, e: Block -> Block): (r: seq<bv8>)
    ensures |r| == |data|
    ensures forall i | 0 <= i < |data| :: r[i] == Add(data[i], Keystream(i, iv, e))
  {
    seq(|data|, i requires 0 <= i < |data| => Add(data[i], Keystream(i, iv, e)))
  }

  lemma CtrUndoesItself(data: seq<bv8>, iv: Block, e: Block -> Block)
    ensures CtrEncrypted(CtrEncrypted(data, iv, e), iv, e) == data
  {
    hide Add, Keystream;
    var once := CtrEncrypted(data, iv, e);
    forall i | 0 <= i < |data|
      ensures CtrEncrypted(once, iv, e)[i] == data[i]
    {
      AddUndoesItself(data[i], Keystream(i, iv, e));
    }
  }

  // One more block, or the beginning of one, after whole blocks.
  lemma CtrExtends(data: seq<bv8>, at: nat, n: nat, iv: Block, e: Block -> Block)
    requires at % 16 == 0 && n <= 16 && at + n <= |data|
    ensures CtrEncrypted(data[..at + n], iv, e) ==
            CtrEncrypted(data[..at], iv, e) + AddBytes(data[at..at + n], e(Counter(iv, at / 16))[..n])
  {
    hide Add, Counter;
    var pad := e(Counter(iv, at / 16));
    forall i | at <= i < at + n
      ensures Keystream(i, iv, e) == pad[i - at]
    {
      assert i / 16 == at / 16 && i % 16 == i - at;
    }
  }

  // ---- Counters ----

  lemma CounterStart(iv: Block)
    ensures Counter(iv, 0) == iv
  {
    BytesOfNumber(iv);
  }

  lemma CounterStep(iv: Block, n: nat, next: Block)
    requires BigEndian(next) == (BigEndian(Counter(iv, n)) + 1) % Pow256(16)
    ensures next == Counter(iv, n + 1)
  {
    hide BigEndian, ToBigEndian, Pow256;
    var start, p := BigEndian(iv), Pow256(16);
    NumberOfBytes(start + n, 16);
    NumberOfBytes(start + n + 1, 16);
    ModuloAdds(start + n, 1, p);
    BytesOfNumber(next);
    BytesOfNumber(Counter(iv, n + 1));
  }

  // Incrementing the byte at `at`, after the bytes behind it have wrapped around, adds one.
  lemma {:induction false} CarryStops(before: seq<bv8>, after: seq<bv8>, at: nat)
    requires at < |before| == |after|
    requires after[..at] == before[..at]
    requires after[at] == before[at] + 1 && (before[at] != 0xff || at == 0)
    requires forall i | at < i < |before| :: before[i] == 0xff && after[i] == 0
    ensures BigEndian(after) == (BigEndian(before) + 1) % Pow256(|before|)
    decreases |before|
  {
    hide Pow256, ValueOf;
    var last := |before| - 1;
    Pow256Step(last);
    LargestByte();
    SmallValues();
    if at < last {
      CarryStops(before[..last], after[..last], at);
      assert BigEndian(before) + 1 == 256 * (BigEndian(before[..last]) + 1);
      assert BigEndian(after) == 256 * BigEndian(after[..last]);
      SplitModulo(256 * (BigEndian(before[..last]) + 1), Pow256(last));
    } else if before[at] == 0xff {
      assert before[..last] == [] && after[..last] == [];
      assert BigEndian(before) == 255 && BigEndian(after) == 0;
      Pow256Step(0);
    } else {
      LastByteSteps(before, after);
    }
  }

  lemma LastByteSteps(before: seq<bv8>, after: seq<bv8>)
    requires 0 < |before| == |after|
    requires after[..|before| - 1] == before[..|before| - 1]
    requires before[|before| - 1] != 0xff && after[|before| - 1] == before[|before| - 1] + 1
    ensures BigEndian(after) == (BigEndian(before) + 1) % Pow256(|before|)
  {
    hide Pow256, ValueOf;
    ByteSuccessor(before[|before| - 1]);
    assert BigEndian(after) == BigEndian(before) + 1;
    BigEndianBound(after);
    ModuloUnique(BigEndian(after), Pow256(|before|), 0, BigEndian(after));
  }

  lemma Pow256Step(n: nat)
    ensures Pow256(n + 1) == 256 * Pow256(n)
    ensures Pow256(0) == 1
  {
  }
}
