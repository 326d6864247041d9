/**
 Strings of bytes: sums, big-endian numbers, and the two memory operations that the modes of
 `examples/aes_encrypt/aes.c` are made of.
 */
module ByteStrings {
  import opened Arithmetic
  import opened AesField

  type Block = b: seq<bv8> | |b| == 16 witness seq(16, _ => 0)

  // ---- Sums ----

  function AddBytes(a: seq<bv8>, b: seq<bv8>): (r: seq<bv8>)
    requires |a| == |b|
    ensures |r| == |a|
    ensures forall i | 0 <= i < |a| :: r[i] == Add(a[i], b[i])
  {
    seq(|a|, i requires 0 <= i < |a| => Add(a[i], b[i]))
  }

  lemma AddBytesUndoesItself(a: seq<bv8>, b: seq<bv8>)
    requires |a| == |b|
    ensures AddBytes(AddBytes(a, b), b) == a
  {
    hide Add;
    forall i | 0 <= i < |a|
      ensures Add(Add(a[i], b[i]), b[i]) == a[i]
    {
      AddUndoesItself(a[i], b[i]);
    }
  }

  // ---- Bytes and numbers ----

  // Binary digits, least significant first.
  type Digits = seq<bool>

  function Pow2(k: nat): (p: nat)
    ensures p > 0
  {
    if k == 0 then 1 else 2 * Pow2(k - 1)
  }

  lemma Pow2Of8()
    ensures Pow2(8) == 256
  {
    assert Pow2(4) == 16;
    assert Pow2(6) == 64;
  }

  function DigitsOf(n: int, k: nat): (d: Digits)
    ensures |d| == k
    decreases k
  {
    if k == 0 then [] else [n % 2 == 1] + DigitsOf(n / 2, k - 1)
  }

  function Weight(d: Digits): nat {
    if d == [] then 0 else (if d[0] then 1 else 0) + 2 * Weight(d[1..])
  }

  lemma {:induction false} WeightBound(d: Digits)
    ensures Weight(d) < Pow2(|d|)
  {
    if d != [] {
      WeightBound(d[1..]);
    }
  }

  lemma {:induction false} WeightOfDigits(n: int, k: nat) returns (q: int)
    ensures n == Pow2(k) * q + Weight(DigitsOf(n, k))
    decreases k
  {
    if k == 0 {
      q := n;
    } else {
      q := WeightOfDigits(n / 2, k - 1);
      var p, w := Pow2(k - 1), Weight(DigitsOf(n / 2, k - 1));
      assert DigitsOf(n, k)[1..] == DigitsOf(n / 2, k - 1);
      assert Weight(DigitsOf(n, k)) == n % 2 + 2 * w;
      assert n == 2 * (n / 2) + n % 2;
      assert 2 * (p * q) == (2 * p) * q;
    }
  }

  lemma {:induction false} DigitsOfWeight(d: Digits)
    ensures DigitsOf(Weight(d), |d|) == d
  {
    if d != [] {
      var w := Weight(d[1..]);
      assert Weight(d) % 2 == (if d[0] then 1 else 0) && Weight(d) / 2 == w;
      DigitsOfWeight(d[1..]);
      assert d == [d[0]] + d[1..];
    }
  }

  function Incremented(d: Digits): (r: Digits)
    ensures |r| == |d|
  {
    if d == [] then [] else if d[0] then [false] + Incremented(d[1..]) else [true] + d[1..]
  }

  predicate AllSet(d: Digits) { false !in d }

  lemma {:induction false} IncrementedWeight(d: Digits)
    ensures Weight(Incremented(d)) == if AllSet(d) then 0 else Weight(d) + 1
  {
    if d != [] {
      IncrementedWeight(d[1..]);
      assert d == [d[0]] + d[1..];
      assert Incremented(d)[1..] == if d[0] then Incremented(d[1..]) else d[1..];
    }
  }

  lemma {:induction false} IncrementedAt(d: Digits, i: nat)
    requires i < |d|
    ensures Incremented(d)[i] == (d[i] != AllSet(d[..i]))
  {
    if i > 0 {
      IncrementedAt(d[1..], i - 1);
      assert d[..i] == [d[0]] + d[1..][..i - 1];
    }
  }

  // The digits of a byte.
  function BitsOf(b: bv8): (d: Digits)
    ensures |d| == 8
  {
    [b & 0x01 != 0, b & 0x02 != 0, b & 0x04 != 0, b & 0x08 != 0,
     b & 0x10 != 0, b & 0x20 != 0, b & 0x40 != 0, b & 0x80 != 0]
  }

  function Masked(on: bool, mask: bv8): bv8 { if on then mask else 0 }

  function Assembled(d: Digits): bv8
    requires |d| == 8
  {
    Masked(d[0], 0x01) | Masked(d[1], 0x02) | Masked(d[2], 0x04) | Masked(d[3], 0x08) |
    Masked(d[4], 0x10) | Masked(d[5], 0x20) | Masked(d[6], 0x40) | Masked(d[7], 0x80)
  }

  lemma AssembledBits(b: bv8)
    ensures Assembled(BitsOf(b)) == b
  {
  }

  lemma BitsAssembled(d: Digits)
    requires |d| == 8
    ensures BitsOf(Assembled(d)) == d
  {
  }

  lemma CarryOfSuccessor(b: bv8)
    ensures (b + 1) & 0x01 != 0 <==> b & 0x01 == 0
    ensures (b + 1) & 0x02 != 0 <==> (b & 0x02 != 0) != (b & 0x01 == 0x01)
    ensures (b + 1) & 0x04 != 0 <==> (b & 0x04 != 0) != (b & 0x03 == 0x03)
    ensures (b + 1) & 0x08 != 0 <==> (b & 0x08 != 0) != (b & 0x07 == 0x07)
    ensures (b + 1) & 0x10 != 0 <==> (b & 0x10 != 0) != (b & 0x0f == 0x0f)
    ensures (b + 1) & 0x20 != 0 <==> (b & 0x20 != 0) != (b & 0x1f == 0x1f)
    ensures (b + 1) & 0x40 != 0 <==> (b & 0x40 != 0) != (b & 0x3f == 0x3f)
    ensures (b + 1) & 0x80 != 0 <==> (b & 0x80 != 0) != (b & 0x7f == 0x7f)
  {
  }

  lemma AllSetOneMore(d: Digits, i: nat)
    requires i < |d|
    ensures AllSet(d[..i + 1]) <==> AllSet(d[..i]) && d[i]
  {
    assert d[..i + 1] == d[..i] + [d[i]];
  }

  lemma LowBitsSet(b: bv8)
    ensures var d := BitsOf(b);
            && AllSet(d[..0])
            && (AllSet(d[..1]) <==> b & 0x01 == 0x01) && (AllSet(d[..2]) <==> b & 0x03 == 0x03)
            && (AllSet(d[..3]) <==> b & 0x07 == 0x07) && (AllSet(d[..4]) <==> b & 0x0f == 0x0f)
            && (AllSet(d[..5]) <==> b & 0x1f == 0x1f) && (AllSet(d[..6]) <==> b & 0x3f == 0x3f)
            && (AllSet(d[..7]) <==> b & 0x7f == 0x7f) && (AllSet(d) <==> b == 0xff)
  {
    var d := BitsOf(b);
    AllSetOneMore(d, 0);
    AllSetOneMore(d, 1);
    AllSetOneMore(d, 2);
    AllSetOneMore(d, 3);
    AllSetOneMore(d, 4);
    AllSetOneMore(d, 5);
    AllSetOneMore(d, 6);
    AllSetOneMore(d, 7);
    assert d[..8] == d;
    assert AllSet(d[..0]);
    hide AllSet;
  }

  lemma BitsOfSuccessor(b: bv8)
    ensures BitsOf(b + 1) == Incremented(BitsOf(b))
    ensures b == 0xff <==> AllSet(BitsOf(b))
  {
    var d, e := BitsOf(b), BitsOf(b + 1);
    LowBitsSet(b);
    CarryOfSuccessor(b);
    hide Incremented, AllSet;
    forall i | 0 <= i < 8 ensures Incremented(d)[i] == (d[i] != AllSet(d[..i])) {
      IncrementedAt(d, i);
    }
    assert e[0] == Incremented(d)[0] && e[1] == Incremented(d)[1] && e[2] == Incremented(d)[2];
    assert e[3] == Incremented(d)[3] && e[4] == Incremented(d)[4] && e[5] == Incremented(d)[5];
    assert e[6] == Incremented(d)[6] && e[7] == Incremented(d)[7];
  }

  // The value of a byte, and the byte whose value is `n` modulo 256.
  function ValueOf(b: bv8): (n: nat)
    ensures n < 256
  {
    Pow2Of8();
    WeightBound(BitsOf(b));
    Weight(BitsOf(b))
  }

  function ByteOf(n: int): bv8 { Assembled(DigitsOf(n, 8)) }

  lemma LowByte(n: int, q: int, w: nat)
    requires n == 256 * q + w && w < 256
    ensures n % 256 == w
  {
  }

  lemma ByteOfValue(n: int)
    ensures ValueOf(ByteOf(n)) == n % 256
  {
    BitsAssembled(DigitsOf(n, 8));
    Pow2Of8();
    var q := WeightOfDigits(n, 8);
    WeightBound(DigitsOf(n, 8));
    hide BitsOf, Assembled, DigitsOf, Weight, Pow2;
    LowByte(n, q, Weight(DigitsOf(n, 8)));
  }

  lemma ValueOfByte(b: bv8)
    ensures ByteOf(ValueOf(b)) == b
  {
    DigitsOfWeight(BitsOf(b));
    AssembledBits(b);
    hide BitsOf, Assembled, DigitsOf, Weight;
  }

  lemma ByteSuccessor(b: bv8)
    ensures ValueOf(b + 1) == if b == 0xff then 0 else ValueOf(b) + 1
  {
    BitsOfSuccessor(b);
    IncrementedWeight(BitsOf(b));
    hide BitsOf, Incremented, Weight, AllSet;
  }

  lemma SmallValues()
    ensures ValueOf(0) == 0 && ValueOf(1) == 1 && ValueOf(2) == 2 && ValueOf(3) == 3
    ensures ValueOf(4) == 4 && ValueOf(5) == 5 && ValueOf(6) == 6 && ValueOf(7) == 7
  {
    hide ValueOf;
    ByteSuccessor(0xff);
    ByteSuccessor(0);
    ByteSuccessor(1);
    ByteSuccessor(2);
    ByteSuccessor(3);
    ByteSuccessor(4);
    ByteSuccessor(5);
    ByteSuccessor(6);
  }

  // A number below 8 and its byte.
  lemma SmallByte(n: nat)
    requires n < 8
    ensures ByteOf(n) < 8 && ValueOf(ByteOf(n)) == n
  {
    SmallValues();
    ByteOfValue(n);
    ValueOfByte(0);
    ValueOfByte(1);
    ValueOfByte(2);
    ValueOfByte(3);
    ValueOfByte(4);
    ValueOfByte(5);
    ValueOfByte(6);
    ValueOfByte(7);
    hide ByteOf, ValueOf;
  }

  lemma {:induction false} AllSetWeight(d: Digits)
    requires AllSet(d)
    ensures Weight(d) == Pow2(|d|) - 1
  {
    if d != [] {
      AllSetWeight(d[1..]);
    }
  }

  lemma LargestByte()
    ensures ValueOf(0xff) == 255
  {
    BitsOfSuccessor(0xff);
    AllSetWeight(BitsOf(0xff));
    Pow2Of8();
    hide BitsOf, Weight, AllSet, Pow2;
  }

  lemma ByteOfModulo(n: int, k: int)
    requires n % 256 == k % 256
    ensures ByteOf(n) == ByteOf(k)
  {
    ByteOfValue(n);
    ByteOfValue(k);
    ValueOfByte(ByteOf(n));
    ValueOfByte(ByteOf(k));
    hide *;
  }

  function Pow256(n: nat): (p: nat)
    ensures p > 0
  {
    if n == 0 then 1 else 256 * Pow256(n - 1)
  }

  // The number that a string of bytes denotes, most significant byte first.
  function BigEndian(s: seq<bv8>): nat {
    if |s| == 0 then 0 else 256 * BigEndian(s[..|s| - 1]) + ValueOf(s[|s| - 1])
  }

  // The string of `k` bytes that denotes `n` modulo 256^k.
  function ToBigEndian(n: nat, k: nat): (s: seq<bv8>)
    ensures |s| == k
  {
    if k == 0 then [] else ToBigEndian(n / 256, k - 1) + [ByteOf(n)]
  }

  lemma {:induction false} BigEndianBound(s: seq<bv8>)
    ensures BigEndian(s) < Pow256(|s|)
  {
    if |s| > 0 {
      BigEndianBound(s[..|s| - 1]);
    }
  }

  lemma {:induction false} BytesOfNumber(s: seq<bv8>)
    ensures ToBigEndian(BigEndian(s), |s|) == s
  {
    hide ByteOf, ValueOf;
    if |s| > 0 {
      BytesOfNumber(s[..|s| - 1]);
      var last := ValueOf(s[|s| - 1]);
      var high := BigEndian(s[..|s| - 1]);
      assert last < 256;
      assert (256 * high + last) / 256 == high;
      assert (256 * high + last) % 256 == last;
      ByteOfModulo(256 * high + last, last);
      ValueOfByte(s[|s| - 1]);
      assert s == s[..|s| - 1] + [s[|s| - 1]];
    }
  }

  lemma {:induction false} NumberOfBytes(n: nat, k: nat)
    ensures BigEndian(ToBigEndian(n, k)) == n % Pow256(k)
  {
    hide ByteOf, ValueOf;
    if k > 0 {
      var s := ToBigEndian(n, k);
      assert s[..k - 1] == ToBigEndian(n / 256, k - 1);
      NumberOfBytes(n / 256, k - 1);
      ByteOfValue(n);
      SplitModulo(n, Pow256(k - 1));
    }
  }

  lemma SplitModulo(n: nat, p: nat)
    requires p > 0
    ensures n % (256 * p) == 256 * ((n / 256) % p) + n % 256
  {
    var q, r := (n / 256) / p, (n / 256) % p;
    assert n / 256 == q * p + r;
    assert n == 256 * (q * p + r) + n % 256;
    assert n == (256 * p) * q + (256 * r + n % 256) by {
      assert 256 * (q * p) == (256 * p) * q;
    }
    assert 256 * r + n % 256 < 256 * p;
    ModuloUnique(n, 256 * p, q, 256 * r + n % 256);
  }

  // ---- Memory ----

  // memcpy between different arrays.
  method CopyBytes(src: array<bv8>, srcAt: nat, dst: array<bv8>, dstAt: nat, n: nat)
    requires src != dst && srcAt + n <= src.Length && dstAt + n <= dst.Length
    modifies dst
    ensures dst[..] == old(dst[..dstAt]) + src[srcAt..srcAt + n] + old(dst[dstAt + n..])
  {
    for i := 0 to n
      invariant dst[..dstAt] == old(dst[..dstAt])
      invariant dst[dstAt..dstAt + i] == src[srcAt..srcAt + i]
      invariant dst[dstAt + i..] == old(dst[dstAt + i..])
    {
      dst[dstAt + i] := src[srcAt + i];
    }
  }

  // memcpy from constant bytes.
  method PutBytes(src: seq<bv8>, dst: array<bv8>, dstAt: nat)
    requires dstAt + |src| <= dst.Length
    modifies dst
    ensures dst[..] == old(dst[..dstAt]) + src + old(dst[dstAt + |src|..])
  {
    for i := 0 to |src|
      invariant dst[..dstAt] == old(dst[..dstAt])
      invariant dst[dstAt..dstAt + i] == src[..i]
      invariant dst[dstAt + i..] == old(dst[dstAt + i..])
    {
      dst[dstAt + i] := src[i];
    }
  }

  // xor_buf: `n` bytes of `src` are added to `n` bytes of `dst`. The two may be the same bytes, or
  // other bytes of one array.
  method XorBuf(src: array<bv8>, dst: array<bv8>, dstAt: nat, n: nat)
    requires n <= src.Length && dstAt + n <= dst.Length
    requires src == dst ==> dstAt == 0 || n <= dstAt
    modifies dst
    ensures dst[..] == old(dst[..dstAt]) + AddBytes(old(dst[dstAt..dstAt + n]), old(src[..n])) + old(dst[dstAt + n..])
  {
    hide Add;
    ghost var data, key := dst[..], src[..n];
    for idx := 0 to n
      invariant forall k | 0 <= k < dstAt || dstAt + idx <= k < dst.Length :: dst[k] == data[k]
      invariant forall i | 0 <= i < idx :: dst[dstAt + i] == Add(data[dstAt + i], key[i])
      invariant forall i | idx <= i < n :: src[i] == key[i]
    {
      dst[dstAt + idx] := Add(dst[dstAt + idx], src[idx]);
    }
    ghost var sum := AddBytes(data[dstAt..dstAt + n], key);
    assert dst[..dstAt] == data[..dstAt] && dst[dstAt + n..] == data[dstAt + n..];
    assert dst[dstAt..dstAt + n] == sum;
    assert dst[..] == dst[..dstAt] + dst[dstAt..dstAt + n] + dst[dstAt + n..];
  }
}
