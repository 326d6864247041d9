/**
 The cipher of section 5.1 and the key expansion of section 5.2 of FIPS 197, byte by byte: what
 `aes_encrypt` and `aes_key_setup` compute, with neither the tables of `aes.c` nor its loops.
 */
module Fips197 {
  import opened AesField
  import opened AesLookup
  import opened AesSubstitution
  import opened AesState
  import opened AesCipher
  import opened AesKeySchedule
  import opened ByteStrings

  // Byte `r` of a word, most significant byte first.
  function WordByte(w: bv32, r: nat): bv8
    requires r < 4
  {
    if r == 0 then ((w >> 24) & 0xff) as bv8
    else if r == 1 then ((w >> 16) & 0xff) as bv8
    else if r == 2 then ((w >> 8) & 0xff) as bv8
    else (w & 0xff) as bv8
  }

  // Row `r` of column `c` after SubBytes and ShiftRows: it comes from `r` columns further on.
  ghost function Moved(b: Block, c: nat, r: nat): bv8
    requires c < 4 && r < 4
  {
    S(b[4 * ((c + r) % 4) + r])
  }

  // Row `r` of column `c` after MixColumns.
  ghost function MixedByte(b: Block, c: nat, r: nat): bv8
    requires c < 4 && r < 4
  {
    Sum4(Times(0x02, Moved(b, c, r)), Times(0x03, Moved(b, c, (r + 1) % 4)),
         Moved(b, c, (r + 2) % 4), Moved(b, c, (r + 3) % 4))
  }

  // Byte `4 * c + r` of a block is row `r` of column `c`; word `4 * n + c` belongs to that column.

  ghost function FirstKey(b: Block, w: seq<bv32>): Block
    requires 4 <= |w|
  {
    seq(16, i requires 0 <= i < 16 => Add(b[i], WordByte(w[i / 4], i % 4)))
  }

  // A full round: SubBytes, ShiftRows, MixColumns, AddRoundKey.
  ghost function FullRound(b: Block, w: seq<bv32>, n: nat): Block
    requires 4 * n + 4 <= |w|
  {
    seq(16, i requires 0 <= i < 16 => Add(MixedByte(b, i / 4, i % 4), WordByte(w[4 * n + i / 4], i % 4)))
  }

  // The last round has no MixColumns.
  ghost function LastRound(b: Block, w: seq<bv32>, n: nat): Block
    requires 4 * n + 4 <= |w|
  {
    seq(16, i requires 0 <= i < 16 => Add(Moved(b, i / 4, i % 4), WordByte(w[4 * n + i / 4], i % 4)))
  }

  ghost function Rounds(b: Block, w: seq<bv32>, n: nat): Block
    requires 4 * n + 4 <= |w|
  {
    if n == 0 then FirstKey(b, w) else FullRound(Rounds(b, w, n - 1), w, n)
  }

  ghost function Cipher(b: Block, w: seq<bv32>, rounds: nat): Block
    requires 0 < rounds && 4 * rounds + 4 <= |w|
  {
    LastRound(Rounds(b, w, rounds - 1), w, rounds)
  }

  // ---- The steps of the model are these ----

  function ColumnAt(s: State, c: nat): Column
    requires c < 4
  {
    if c == 0 then s.c0 else if c == 1 then s.c1 else if c == 2 then s.c2 else s.c3
  }

  function ByteAt(a: Column, r: nat): bv8
    requires r < 4
  {
    if r == 0 then a.b0 else if r == 1 then a.b1 else if r == 2 then a.b2 else a.b3
  }

  lemma LoadedByte(b: Block, c: nat, r: nat)
    requires c < 4 && r < 4
    ensures ByteAt(ColumnAt(ToState(b), c), r) == b[4 * c + r]
  {
    assert ColumnAt(ToState(b), c) == Column(b[4 * c], b[4 * c + 1], b[4 * c + 2], b[4 * c + 3]);
    hide ToState;
  }

  lemma SameBytes(b: Block, s: State)
    requires forall i | 0 <= i < 16 :: b[i] == ByteAt(ColumnAt(s, i / 4), i % 4)
    ensures ToState(b) == s
  {
    assert b[0] == s.c0.b0 && b[1] == s.c0.b1 && b[2] == s.c0.b2 && b[3] == s.c0.b3;
    assert b[4] == s.c1.b0 && b[5] == s.c1.b1 && b[6] == s.c1.b2 && b[7] == s.c1.b3;
    assert b[8] == s.c2.b0 && b[9] == s.c2.b1 && b[10] == s.c2.b2 && b[11] == s.c2.b3;
    assert b[12] == s.c3.b0 && b[13] == s.c3.b1 && b[14] == s.c3.b2 && b[15] == s.c3.b3;
  }

  lemma WordBytes(w: bv32, r: nat)
    requires r < 4
    ensures ByteAt(WordColumn(w), r) == WordByte(w, r)
  {
  }

  lemma KeyedByte(s: State, w: seq<bv32>, n: nat, c: nat, r: nat)
    requires 4 * n + 4 <= |w| && c < 4 && r < 4
    ensures ByteAt(ColumnAt(AddKey(s, RoundKey(w, 4 * n)), c), r) ==
            Add(ByteAt(ColumnAt(s, c), r), WordByte(w[4 * n + c], r))
  {
    hide Add, WordColumn, WordByte;
    WordBytes(w[4 * n + c], r);
    assert ColumnAt(AddKey(s, RoundKey(w, 4 * n)), c) == AddColumn(ColumnAt(s, c), WordColumn(w[4 * n + c]));
  }

  lemma ShiftedByte(s: State, c: nat, r: nat)
    requires c < 4 && r < 4
    ensures ByteAt(ColumnAt(Shifted(s), c), r) == ByteAt(ColumnAt(s, (c + r) % 4), r)
  {
  }

  lemma SubstitutedByte(s: State, c: nat, r: nat)
    requires c < 4 && r < 4
    ensures ByteAt(ColumnAt(Substituted(s), c), r) == S(ByteAt(ColumnAt(s, c), r))
  {
    hide SubByte, S;
    SubByteIsS(ByteAt(ColumnAt(s, c), r));
  }

  lemma ConfusedByte(b: Block, c: nat, r: nat)
    requires c < 4 && r < 4
    ensures ByteAt(ColumnAt(Confused(ToState(b)), c), r) == Moved(b, c, r)
  {
    hide Substituted, Shifted, S, ToState, ByteAt, ColumnAt;
    ShiftedByte(Substituted(ToState(b)), c, r);
    SubstitutedByte(ToState(b), (c + r) % 4, r);
    LoadedByte(b, (c + r) % 4, r);
  }

  lemma MixedColumnByte(a: Column, r: nat)
    requires r < 4
    ensures ByteAt(MixedColumn(a), r) ==
            Sum4(Times(0x02, ByteAt(a, r)), Times(0x03, ByteAt(a, (r + 1) % 4)),
                 ByteAt(a, (r + 2) % 4), ByteAt(a, (r + 3) % 4))
  {
    hide MixedColumn, Sum4, Times;
    MixIsMatrixProduct(a);
  }

  lemma MixedIs(b: Block, c: nat, r: nat)
    requires c < 4 && r < 4
    ensures ByteAt(ColumnAt(Mixed(Confused(ToState(b))), c), r) == MixedByte(b, c, r)
  {
    var s := Confused(ToState(b));
    assert ColumnAt(Mixed(s), c) == MixedColumn(ColumnAt(s, c)) by { hide MixedColumn, Confused; }
    hide Confused, Mixed, Moved, MixedColumn, Sum4, Times, ByteAt, ColumnAt, ToState;
    MixedColumnByte(ColumnAt(s, c), r);
    ConfusedByte(b, c, r);
    ConfusedByte(b, c, (r + 1) % 4);
    ConfusedByte(b, c, (r + 2) % 4);
    ConfusedByte(b, c, (r + 3) % 4);
  }

  lemma FullRoundIs(b: Block, w: seq<bv32>, n: nat)
    requires 4 * n + 4 <= |w|
    ensures ToState(FullRound(b, w, n)) == AddKey(Mixed(Confused(ToState(b))), RoundKey(w, 4 * n))
  {
    hide MixedByte, WordByte, Add, Confused, Mixed, AddKey, RoundKey, ByteAt, ColumnAt, ToState;
    var s := Mixed(Confused(ToState(b)));
    forall i | 0 <= i < 16
      ensures FullRound(b, w, n)[i] == ByteAt(ColumnAt(AddKey(s, RoundKey(w, 4 * n)), i / 4), i % 4)
    {
      KeyedByte(s, w, n, i / 4, i % 4);
      MixedIs(b, i / 4, i % 4);
    }
    SameBytes(FullRound(b, w, n), AddKey(s, RoundKey(w, 4 * n)));
  }

  lemma LastRoundIs(b: Block, w: seq<bv32>, n: nat)
    requires 4 * n + 4 <= |w|
    ensures ToState(LastRound(b, w, n)) == AddKey(Confused(ToState(b)), RoundKey(w, 4 * n))
  {
    hide Moved, WordByte, Add, Confused, AddKey, RoundKey, ByteAt, ColumnAt, ToState;
    var s := Confused(ToState(b));
    forall i | 0 <= i < 16
      ensures LastRound(b, w, n)[i] == ByteAt(ColumnAt(AddKey(s, RoundKey(w, 4 * n)), i / 4), i % 4)
    {
      KeyedByte(s, w, n, i / 4, i % 4);
      ConfusedByte(b, i / 4, i % 4);
    }
    SameBytes(LastRound(b, w, n), AddKey(s, RoundKey(w, 4 * n)));
  }

  lemma FirstKeyIs(b: Block, w: seq<bv32>)
    requires 4 <= |w|
    ensures ToState(FirstKey(b, w)) == AddKey(ToState(b), RoundKey(w, 0))
  {
    hide WordByte, Add, AddKey, RoundKey, ByteAt, ColumnAt, ToState;
    var s := ToState(b);
    forall i | 0 <= i < 16
      ensures FirstKey(b, w)[i] == ByteAt(ColumnAt(AddKey(s, RoundKey(w, 0)), i / 4), i % 4)
    {
      KeyedByte(s, w, 0, i / 4, i % 4);
      LoadedByte(b, i / 4, i % 4);
    }
    SameBytes(FirstKey(b, w), AddKey(s, RoundKey(w, 0)));
  }

  lemma {:induction false} RoundsAre(b: Block, w: seq<bv32>, keys: seq<State>, n: nat)
    requires n < |keys| && 4 * |keys| <= |w|
    requires forall k | 0 <= k < |keys| :: keys[k] == RoundKey(w, 4 * k)
    ensures ToState(Rounds(b, w, n)) == AES.Forward(ToState(b), keys, n)
  {
    hide FirstKey, FullRound, ToState, AddKey, Mixed, Confused, RoundKey;
    if n == 0 {
      FirstKeyIs(b, w);
    } else {
      RoundsAre(b, w, keys, n - 1);
      FullRoundIs(Rounds(b, w, n - 1), w, n);
    }
  }

  lemma CipherIs(b: Block, w: seq<bv32>, rounds: nat)
    requires 0 < rounds && 4 * rounds + 4 <= |w|
    ensures Cipher(b, w, rounds) == ToBytes(AES.Encrypt(ToState(b), RoundKeys(w, rounds)))
  {
    hide LastRound, Rounds, ToState, ToBytes, AddKey, Mixed, Confused, RoundKey;
    var keys := RoundKeys(w, rounds);
    RoundsAre(b, w, keys, rounds - 1);
    LastRoundIs(Rounds(b, w, rounds - 1), w, rounds);
    BytesOfState(Cipher(b, w, rounds));
  }

  // What aes_encrypt computes: the cipher of the standard with 10 rounds for 128 bits, 12 for 192
  // and 14 for 256 and every other size.
  lemma EncryptIsCipher(b: Block, w: seq<bv32>, keysize: int)
    requires EncryptsWith(w, keysize)
    ensures var rounds := if keysize == 128 then 10 else if keysize == 192 then 12 else 14;
            4 * rounds + 4 <= |w| && EncryptBlock(b, w, keysize) == Cipher(b, w, rounds)
  {
    hide Cipher, ToState, ToBytes, RoundKeys;
    CipherIs(b, w, EncryptRounds(keysize));
  }

  // aes_decrypt undoes the cipher of the standard, with its own number of rounds.
  lemma DecryptUndoesCipher(b: Block, w: seq<bv32>, keysize: int)
    requires DecryptsWith(w, keysize)
    ensures var rounds := if keysize <= 128 then 10 else if keysize <= 192 then 12 else 14;
            && 4 * rounds + 4 <= |w|
            && DecryptBlock(Cipher(b, w, rounds), w, keysize) == b
            && Cipher(DecryptBlock(b, w, keysize), w, rounds) == b
  {
    hide Cipher, AddKey, Mixed, Confused, ToState, ToBytes, RoundKeys;
    var rounds := DecryptRounds(keysize);
    CipherIs(b, w, rounds);
    CipherIs(DecryptBlock(b, w, keysize), w, rounds);
    var keys := RoundKeys(w, rounds);
    AesRoundTrip(ToState(b), keys);
    StateOfBytes(AES.Encrypt(ToState(b), keys));
    StateOfBytes(AES.Decrypt(ToState(b), keys));
    BytesOfState(b);
  }

  // ---- The key expansion ----

  // What row `r` of word `i` adds to the same row of the word `nk` before.
  ghost function Schedule(w: seq<bv32>, nk: nat, i: nat, r: nat): bv8
    requires 0 < nk <= i < |w| && r < 4
  {
    if i % nk == 0 then
      Add(S(WordByte(w[i - 1], (r + 1) % 4)), if r == 0 then PowerOfX(i / nk - 1) else 0)
    else if nk == 8 && i % 8 == 4 then S(WordByte(w[i - 1], r))
    else WordByte(w[i - 1], r)
  }

  // Section 5.2, for keys of 16, 24 and 32 bytes.
  ghost predicate IsKeyExpansion(w: seq<bv32>, key: seq<bv8>, nk: nat)
    requires 0 < nk && 4 * nk <= |key|
  {
    && |w| == 4 * (nk + 7)
    && (forall i, r | 0 <= i < nk && 0 <= r < 4 :: WordByte(w[i], r) == key[4 * i + r])
    && (forall i, r | nk <= i < |w| && 0 <= r < 4 ::
          WordByte(w[i], r) == Add(WordByte(w[i - nk], r), Schedule(w, nk, i, r)))
  }

  lemma XorRow0(a: bv32, b: bv32)
    ensures WordByte(Xor(a, b), 0) == Add(WordByte(a, 0), WordByte(b, 0))
  {
  }

  lemma XorRow1(a: bv32, b: bv32)
    ensures WordByte(Xor(a, b), 1) == Add(WordByte(a, 1), WordByte(b, 1))
  {
  }

  lemma XorRow2(a: bv32, b: bv32)
    ensures WordByte(Xor(a, b), 2) == Add(WordByte(a, 2), WordByte(b, 2))
  {
  }

  lemma XorRow3(a: bv32, b: bv32)
    ensures WordByte(Xor(a, b), 3) == Add(WordByte(a, 3), WordByte(b, 3))
  {
  }

  lemma XorByte(a: bv32, b: bv32, r: nat)
    requires r < 4
    ensures WordByte(Xor(a, b), r) == Add(WordByte(a, r), WordByte(b, r))
  {
    XorRow0(a, b);
    XorRow1(a, b);
    XorRow2(a, b);
    XorRow3(a, b);
    hide *;
  }

  lemma SubWordByte(w: bv32, r: nat)
    requires r < 4
    ensures WordByte(SubWord(w), r) == S(WordByte(w, r))
  {
    hide SubWord, WordColumn, WordByte, SubByte, S;
    WordBytes(SubWord(w), r);
    WordBytes(w, r);
    SubWordBytes(w);
    SubByteIsS(WordByte(w, r));
  }

  lemma RotWordByte(w: bv32, r: nat)
    requires r < 4
    ensures WordByte(RotWord(w), r) == WordByte(w, (r + 1) % 4)
  {
    hide RotWord, WordColumn, WordByte;
    WordBytes(RotWord(w), r);
    WordBytes(w, (r + 1) % 4);
    RotWordBytes(w);
  }

  lemma PackedByte(b0: bv8, b1: bv8, b2: bv8, b3: bv8, r: nat)
    requires r < 4
    ensures WordByte(PackWord(b0, b1, b2, b3), r) == [b0, b1, b2, b3][r]
  {
    hide PackWord, WordColumn, WordByte;
    WordBytes(PackWord(b0, b1, b2, b3), r);
    PackWordBytes(b0, b1, b2, b3);
  }

  lemma ExpandedByte(w: seq<bv32>, nk: nat, i: nat, r: nat)
    requires nk == 4 || nk == 6 || nk == 8
    requires nk <= i < |w| <= 15 * nk && r < 4 && ExpandsAt(w, i, nk)
    ensures WordByte(w[i], r) == Add(WordByte(w[i - nk], r), Schedule(w, nk, i, r))
  {
    hide Xor, SubWord, RotWord, PackWord, WordByte, S, Add, PowerOfX;
    var p := w[i - 1];
    XorByte(w[i - nk], Temp(p, i, nk), r);
    if i % nk == 0 {
      var n := i / nk - 1;
      assert (i - 1) / nk == n;
      XorByte(SubWord(RotWord(p)), RCON[n], r);
      SubWordByte(RotWord(p), r);
      RotWordByte(p, r);
      RconIsPowerOfX(n);
      PackedByte(PowerOfX(n), 0, 0, 0, r);
    } else if nk > 6 && i % nk == 4 {
      SubWordByte(p, r);
    }
  }

  // What aes_key_setup leaves in the words is the key expansion of the standard.
  lemma ScheduleIsExpansion(w: seq<bv32>, key: seq<bv8>, keysize: int)
    requires KeyWords(keysize) != 0 && |w| == ScheduleLength(keysize) && 4 * KeyWords(keysize) <= |key|
    requires IsSchedule(w, key, keysize)
    ensures keysize in {128, 192, 256} && 4 * (keysize / 32) <= |key| && IsKeyExpansion(w, key, keysize / 32)
  {
    hide PackWord, WordByte, Schedule, Add, ExpandsAt;
    var nk := KeyWords(keysize);
    forall i, r | 0 <= i < nk && 0 <= r < 4
      ensures WordByte(w[i], r) == key[4 * i + r]
    {
      assert w[i] == KeyWord(key, i);
      PackedByte(key[4 * i], key[4 * i + 1], key[4 * i + 2], key[4 * i + 3], r);
    }
    forall i, r | nk <= i < |w| && 0 <= r < 4
      ensures WordByte(w[i], r) == Add(WordByte(w[i - nk], r), Schedule(w, nk, i, r))
    {
      ExpandedByte(w, nk, i, r);
    }
  }
}
