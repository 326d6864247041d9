/**
 The block cipher of `examples/aes_encrypt/aes.c`: the cipher and the inverse cipher of sections
 5.1 and 5.3 of FIPS 197, as functions on states and as the methods that compute them in place.
 */
module AesCipher {
  import opened AesField
  import opened AesState
  import opened ByteStrings
  import opened IteratedCipher

  // ---- The cipher as a function ----

  function Confused(s: State): State { Shifted(Substituted(s)) }

  function Unconfused(s: State): State { InvSubstituted(InvShifted(s)) }

  const AES: Steps<State> := Steps(AddKey, Confused, Unconfused, Mixed, InvMixed)

  // The number of rounds that the tests of aes_encrypt select. Any size but 128 and 192 gets 14.
  function EncryptRounds(keysize: int): nat {
    if keysize != 128 then (if keysize != 192 then 14 else 12) else 10
  }

  // The number of rounds that the tests of aes_decrypt select; these compare with `>`.
  function DecryptRounds(keysize: int): nat {
    if keysize > 128 then (if keysize > 192 then 14 else 12) else 10
  }

  // The round keys that `rounds` rounds take from a schedule of words.
  function RoundKeys(key: seq<bv32>, rounds: nat): (keys: seq<State>)
    requires 4 * rounds + 4 <= |key|
    ensures |keys| == rounds + 1
    ensures forall n | 0 <= n <= rounds :: keys[n] == RoundKey(key, 4 * n)
  {
    seq(rounds + 1, n requires 0 <= n <= rounds => RoundKey(key, 4 * n))
  }

  predicate EncryptsWith(key: seq<bv32>, keysize: int) {
    4 * EncryptRounds(keysize) + 4 <= |key|
  }

  predicate DecryptsWith(key: seq<bv32>, keysize: int) {
    4 * DecryptRounds(keysize) + 4 <= |key|
  }

  function EncryptState(s: State, key: seq<bv32>, keysize: int): State
    requires EncryptsWith(key, keysize)
  {
    AES.Encrypt(s, RoundKeys(key, EncryptRounds(keysize)))
  }

  function DecryptState(s: State, key: seq<bv32>, keysize: int): State
    requires DecryptsWith(key, keysize)
  {
    AES.Decrypt(s, RoundKeys(key, DecryptRounds(keysize)))
  }

  // ---- The inverse cipher undoes the cipher ----

  lemma ConfusionUndone(s: State)
    ensures Unconfused(Confused(s)) == s
    ensures Confused(Unconfused(s)) == s
  {
    ShiftsAreInverse(Substituted(s));
    SubstitutionsAreInverse(s);
    SubstitutionsAreInverse(InvShifted(s));
    ShiftsAreInverse(s);
  }

  lemma AesIsInvertible()
    ensures AES.Invertible()
  {
    forall s
      ensures AES.unconfuse(AES.confuse(s)) == s && AES.confuse(AES.unconfuse(s)) == s
    {
      ConfusionUndone(s);
    }
    forall s
      ensures AES.unmix(AES.mix(s)) == s && AES.mix(AES.unmix(s)) == s
    {
      MixesAreInverse(s);
    }
    forall s, k
      ensures AES.add(AES.add(s, k), k) == s
    {
      AddKeyUndoesItself(s, k);
    }
  }

  lemma AesRoundTrip(s: State, keys: seq<State>)
    requires |keys| >= 2
    ensures AES.Decrypt(AES.Encrypt(s, keys), keys) == s
    ensures AES.Encrypt(AES.Decrypt(s, keys), keys) == s
  {
    AesIsInvertible();
    AES.RoundTrip(s, keys);
  }

  // For every key schedule: the two agree on the number of rounds for the documented sizes 128, 192
  // and 256, and for every size above 192.
  lemma StateRoundTrip(s: State, key: seq<bv32>, keysize: int)
    requires EncryptsWith(key, keysize)
    requires keysize == 128 || keysize >= 192
    ensures DecryptState(EncryptState(s, key, keysize), key, keysize) == s
    ensures EncryptState(DecryptState(s, key, keysize), key, keysize) == s
  {
    AesRoundTrip(s, RoundKeys(key, EncryptRounds(keysize)));
  }

  // ---- Blocks of sixteen bytes ----

  // Byte `4 * c + r` of a block is entry `state[r][c]`.
  function ToState(b: Block): State {
    State(Column(b[0], b[1], b[2], b[3]), Column(b[4], b[5], b[6], b[7]),
          Column(b[8], b[9], b[10], b[11]), Column(b[12], b[13], b[14], b[15]))
  }

  function ColumnBytes(a: Column): seq<bv8> { [a.b0, a.b1, a.b2, a.b3] }

  function ToBytes(s: State): Block {
    ColumnBytes(s.c0) + ColumnBytes(s.c1) + ColumnBytes(s.c2) + ColumnBytes(s.c3)
  }

  lemma BytesOfState(b: Block)
    ensures ToBytes(ToState(b)) == b
  {
  }

  lemma StateOfBytes(s: State)
    ensures ToState(ToBytes(s)) == s
  {
  }

  function EncryptBlock(b: Block, key: seq<bv32>, keysize: int): Block
    requires EncryptsWith(key, keysize)
  {
    ToBytes(EncryptState(ToState(b), key, keysize))
  }

  function DecryptBlock(b: Block, key: seq<bv32>, keysize: int): Block
    requires DecryptsWith(key, keysize)
  {
    ToBytes(DecryptState(ToState(b), key, keysize))
  }

  // The cipher and the inverse cipher under one schedule, as functions on blocks.

  function EncryptWith(key: seq<bv32>, keysize: int): Block -> Block
    requires EncryptsWith(key, keysize)
  {
    (b: Block) => EncryptBlock(b, key, keysize)
  }

  function DecryptWith(key: seq<bv32>, keysize: int): Block -> Block
    requires DecryptsWith(key, keysize)
  {
    (b: Block) => DecryptBlock(b, key, keysize)
  }

  // aes_decrypt undoes aes_encrypt and the other way round, for every block and every schedule.
  lemma BlockRoundTrip(b: Block, key: seq<bv32>, keysize: int)
    requires EncryptsWith(key, keysize)
    requires keysize == 128 || keysize >= 192
    ensures DecryptBlock(EncryptBlock(b, key, keysize), key, keysize) == b
    ensures EncryptBlock(DecryptBlock(b, key, keysize), key, keysize) == b
  {
    StateRoundTrip(ToState(b), key, keysize);
    StateOfBytes(EncryptState(ToState(b), key, keysize));
    StateOfBytes(DecryptState(ToState(b), key, keysize));
    BytesOfState(b);
  }

  // ---- Exactly which key sizes round-trip ----

  // Sixty words are enough for any key size.
  ghost predicate RoundTrips(keysize: int) {
    forall b: Block, key: seq<bv32> | |key| == 60 ::
      DecryptBlock(EncryptBlock(b, key, keysize), key, keysize) == b
  }

  lemma AddKeyIsInjective(s: State, k: State, k': State)
    requires AddKey(s, k) == AddKey(s, k')
    ensures k == k'
  {
    forall a: bv8, x: bv8
      ensures Add(a, Add(a, x)) == x
    {
      assert Add(a, a ^ x) == x;
    }
    assert AddKey(s, AddKey(s, k)) == k;
    assert AddKey(s, AddKey(s, k')) == k';
  }

  lemma SameRoundKey(key: seq<bv32>, key': seq<bv32>, from: nat)
    requires |key| == |key'| == 60 && key[..56] == key'[..56] && from + 4 <= 56
    ensures RoundKey(key, from) == RoundKey(key', from)
  {
    hide WordColumn;
    assert key[from] == key[..56][from] && key[from + 1] == key[..56][from + 1];
    assert key[from + 2] == key[..56][from + 2] && key[from + 3] == key[..56][from + 3];
  }

  // Two schedules that differ in the last round key only, which the shorter inverse never reads,
  // give two ciphertexts, and the inverse cannot map both back to the same block.
  lemma OneOfTwoFails(s: State, key: seq<bv32>, key': seq<bv32>, keysize: int)
    requires |key| == |key'| == 60 && keysize != 128 && keysize < 192
    requires key[..56] == key'[..56] && RoundKey(key, 56) != RoundKey(key', 56)
    ensures DecryptState(EncryptState(s, key, keysize), key, keysize) != s ||
            DecryptState(EncryptState(s, key', keysize), key', keysize) != s
  {
    hide AddKey, Confused, Mixed, Unconfused, InvMixed, WordColumn;
    var keys, keys' := RoundKeys(key, 14), RoundKeys(key', 14);
    var c, c' := AES.Encrypt(s, keys), AES.Encrypt(s, keys');
    if c == c' {
      forall t, k, k' | AES.add(t, k) == AES.add(t, k')
        ensures k == k'
      {
        AddKeyIsInjective(t, k, k');
      }
      forall n | 0 <= n < 14
        ensures keys[n] == keys'[n]
      {
        SameRoundKey(key, key', 4 * n);
      }
      AES.LastKeyMatters(s, keys, keys');
      assert false;
    }
    var rounds := DecryptRounds(keysize);
    forall n | 0 <= n <= rounds
      ensures RoundKey(key, 4 * n) == RoundKey(key', 4 * n)
    {
      SameRoundKey(key, key', 4 * n);
    }
    assert RoundKeys(key, rounds) == RoundKeys(key', rounds);
    AesRoundTrip(c, RoundKeys(key, rounds));
    AesRoundTrip(c', RoundKeys(key, rounds));
  }

  lemma BlockFailsWithState(b: Block, key: seq<bv32>, keysize: int)
    requires |key| == 60
    requires DecryptState(EncryptState(ToState(b), key, keysize), key, keysize) != ToState(b)
    ensures DecryptBlock(EncryptBlock(b, key, keysize), key, keysize) != b
  {
    hide EncryptState, DecryptState, ToBytes, ToState;
    StateOfBytes(EncryptState(ToState(b), key, keysize));
    StateOfBytes(DecryptState(EncryptState(ToState(b), key, keysize), key, keysize));
  }

  lemma SomeScheduleFails(b: Block, keysize: int)
    requires keysize != 128 && keysize < 192
    ensures exists key: seq<bv32> | |key| == 60 ::
      DecryptBlock(EncryptBlock(b, key, keysize), key, keysize) != b
  {
    hide EncryptBlock, DecryptBlock, EncryptState, DecryptState, ToState;
    var key: seq<bv32> := seq(60, _ => 0);
    var key' := key[56 := 1];
    assert WordColumn(key[56]).b3 == 0 && WordColumn(key'[56]).b3 == 1;
    OneOfTwoFails(ToState(b), key, key', keysize);
    if DecryptState(EncryptState(ToState(b), key, keysize), key, keysize) != ToState(b) {
      BlockFailsWithState(b, key, keysize);
    } else {
      BlockFailsWithState(b, key', keysize);
    }
  }

  // The round trip holds for all blocks and schedules exactly when the two numbers of rounds agree.
  lemma RoundTripsExactly(keysize: int)
    ensures RoundTrips(keysize) <==> keysize == 128 || keysize >= 192
  {
    if keysize == 128 || keysize >= 192 {
      forall b: Block, key: seq<bv32> | |key| == 60
        ensures DecryptBlock(EncryptBlock(b, key, keysize), key, keysize) == b
      {
        BlockRoundTrip(b, key, keysize);
      }
    } else {
      SomeScheduleFails(seq(16, _ => 0), keysize);
    }
  }

  // ---- The cipher in place ----

  method LoadColumn(input: array<bv8>, state: array2<bv8>, c: nat)
    requires input.Length >= 16 && IsGrid(state) && c < 4
    modifies state
    ensures forall r | 0 <= r < 4 :: state[r, c] == input[4 * c + r]
    ensures forall i, j | 0 <= i < 4 && 0 <= j < 4 && j != c :: state[i, j] == old(state[i, j])
  {
    state[0, c] := input[4 * c];
    state[1, c] := input[4 * c + 1];
    state[2, c] := input[4 * c + 2];
    state[3, c] := input[4 * c + 3];
  }

  method LoadState(input: array<bv8>) returns (state: array2<bv8>)
    requires input.Length >= 16
    ensures fresh(state) && IsGrid(state) && View(state) == ToState(input[..16])
  {
    state := new bv8[4, 4];
    LoadColumn(input, state, 0);
    LoadColumn(input, state, 1);
    LoadColumn(input, state, 2);
    LoadColumn(input, state, 3);
  }

  method StoreColumn(state: array2<bv8>, out: array<bv8>, c: nat)
    requires IsGrid(state) && out.Length >= 16 && c < 4
    modifies out
    ensures out[4 * c..4 * c + 4] == ColumnBytes(ColumnOf(state, c))
    ensures forall i | 0 <= i < out.Length && !(4 * c <= i < 4 * c + 4) :: out[i] == old(out[i])
  {
    out[4 * c] := state[0, c];
    out[4 * c + 1] := state[1, c];
    out[4 * c + 2] := state[2, c];
    out[4 * c + 3] := state[3, c];
  }

  method StoreState(state: array2<bv8>, out: array<bv8>)
    requires IsGrid(state) && out.Length >= 16
    modifies out
    ensures out[..16] == ToBytes(View(state))
    ensures out[16..] == old(out[16..])
  {
    StoreColumn(state, out, 0);
    StoreColumn(state, out, 1);
    StoreColumn(state, out, 2);
    StoreColumn(state, out, 3);
    assert out[0..4] == ColumnBytes(ColumnOf(state, 0));
    assert out[4..8] == ColumnBytes(ColumnOf(state, 1));
    assert out[8..12] == ColumnBytes(ColumnOf(state, 2));
    assert out[12..16] == ColumnBytes(ColumnOf(state, 3));
    Quarters(out[..16]);
  }

  lemma Quarters(s: seq<bv8>)
    requires |s| == 16
    ensures s == s[0..4] + s[4..8] + s[8..12] + s[12..16]
  {
  }

  // One line of the cipher: SubBytes, ShiftRows, MixColumns, AddRoundKey.
  method FullRound(state: array2<bv8>, key: seq<bv32>, from: nat, ghost s: State, ghost keys: seq<State>)
    requires IsGrid(state) && from + 4 <= |key| && from % 4 == 0
    requires 0 < from / 4 < |keys| && keys[from / 4] == RoundKey(key, from)
    requires View(state) == AES.Forward(s, keys, from / 4 - 1)
    modifies state
    ensures View(state) == AES.Forward(s, keys, from / 4)
  {
    SubBytes(state);
    ShiftRows(state);
    MixColumns(state);
    AddRoundKey(state, key, from);
  }

  method LastRound(state: array2<bv8>, key: seq<bv32>, from: nat, ghost s: State, ghost keys: seq<State>)
    requires IsGrid(state) && from + 4 <= |key| && from % 4 == 0
    requires 0 < from / 4 == |keys| - 1 && keys[from / 4] == RoundKey(key, from)
    requires View(state) == AES.Forward(s, keys, from / 4 - 1)
    modifies state
    ensures View(state) == AES.Encrypt(s, keys)
  {
    SubBytes(state);
    ShiftRows(state);
    AddRoundKey(state, key, from);
  }

  // The nine full rounds that every key size performs.
  method NineRounds(state: array2<bv8>, key: seq<bv32>, ghost s: State, ghost keys: seq<State>)
    requires IsGrid(state) && 40 <= |key|
    requires 10 <= |keys| && forall n | 0 <= n < 10 :: keys[n] == RoundKey(key, 4 * n)
    requires View(state) == AES.Forward(s, keys, 0)
    modifies state
    ensures View(state) == AES.Forward(s, keys, 9)
  {
    FullRound(state, key, 4, s, keys);
    FullRound(state, key, 8, s, keys);
    FullRound(state, key, 12, s, keys);
    FullRound(state, key, 16, s, keys);
    FullRound(state, key, 20, s, keys);
    FullRound(state, key, 24, s, keys);
    FullRound(state, key, 28, s, keys);
    FullRound(state, key, 32, s, keys);
    FullRound(state, key, 36, s, keys);
  }

  method TwoRounds(state: array2<bv8>, key: seq<bv32>, from: nat, ghost s: State, ghost keys: seq<State>)
    requires IsGrid(state) && from + 8 <= |key| && from % 4 == 0
    requires 0 < from / 4 < |keys| - 1
    requires keys[from / 4] == RoundKey(key, from) && keys[from / 4 + 1] == RoundKey(key, from + 4)
    requires View(state) == AES.Forward(s, keys, from / 4 - 1)
    modifies state
    ensures View(state) == AES.Forward(s, keys, from / 4 + 1)
  {
    hide AddKey, Confused, Mixed;
    FullRound(state, key, from, s, keys);
    FullRound(state, key, from + 4, s, keys);
  }

  // The rounds after the ninth.
  method RemainingRounds(state: array2<bv8>, key: seq<bv32>, keysize: int, ghost s: State, ghost keys: seq<State>)
    requires IsGrid(state) && EncryptsWith(key, keysize)
    requires |keys| == EncryptRounds(keysize) + 1
    requires forall n | 0 <= n < |keys| :: keys[n] == RoundKey(key, 4 * n)
    requires View(state) == AES.Forward(s, keys, 9)
    modifies state
    ensures View(state) == AES.Encrypt(s, keys)
  {
    hide AddKey, Confused, Mixed;
    if keysize != 128 {
      TwoRounds(state, key, 40, s, keys);
      if keysize != 192 {
        TwoRounds(state, key, 48, s, keys);
        LastRound(state, key, 56, s, keys);
      } else {
        LastRound(state, key, 48, s, keys);
      }
    } else {
      LastRound(state, key, 40, s, keys);
    }
  }

  method EncryptInPlace(state: array2<bv8>, key: seq<bv32>, keysize: int)
    requires IsGrid(state) && EncryptsWith(key, keysize)
    modifies state
    ensures View(state) == EncryptState(old(View(state)), key, keysize)
  {
    ghost var s := View(state);
    ghost var keys := RoundKeys(key, EncryptRounds(keysize));

    AddRoundKey(state, key, 0);
    NineRounds(state, key, s, keys);
    RemainingRounds(state, key, keysize, s, keys);
  }

  // aes_encrypt; `input` and `out` may be the same array.
  method AesEncrypt(input: array<bv8>, out: array<bv8>, key: seq<bv32>, keysize: int)
    requires input.Length >= 16 && out.Length >= 16 && EncryptsWith(key, keysize)
    modifies out
    ensures out[..16] == EncryptBlock(old(input[..16]), key, keysize)
    ensures out[16..] == old(out[16..])
  {
    var state := LoadState(input);
    EncryptInPlace(state, key, keysize);
    StoreState(state, out);
  }

  // One line of the inverse cipher: InvShiftRows, InvSubBytes, AddRoundKey, InvMixColumns.
  method InvFullRound(state: array2<bv8>, key: seq<bv32>, from: nat, ghost s: State, ghost keys: seq<State>)
    requires IsGrid(state) && from + 4 <= |key| && from % 4 == 0
    requires 0 < from / 4 < |keys| - 1 && keys[from / 4] == RoundKey(key, from)
    requires View(state) == AES.Backward(s, keys, from / 4 + 1)
    modifies state
    ensures View(state) == AES.Backward(s, keys, from / 4)
  {
    InvShiftRows(state);
    InvSubBytes(state);
    AddRoundKey(state, key, from);
    InvMixColumns(state);
  }

  // The first step of the inverse cipher: the last round key is added.
  method InvFirstKey(state: array2<bv8>, key: seq<bv32>, from: nat, ghost s: State, ghost keys: seq<State>)
    requires IsGrid(state) && from + 4 <= |key| && from % 4 == 0
    requires from / 4 == |keys| - 1 && keys[from / 4] == RoundKey(key, from)
    requires View(state) == s
    modifies state
    ensures View(state) == AES.Backward(s, keys, from / 4)
  {
    AddRoundKey(state, key, from);
  }

  method InvLastRound(state: array2<bv8>, key: seq<bv32>, ghost s: State, ghost keys: seq<State>)
    requires IsGrid(state) && 4 <= |key|
    requires 2 <= |keys| && keys[0] == RoundKey(key, 0)
    requires View(state) == AES.Backward(s, keys, 1)
    modifies state
    ensures View(state) == AES.Decrypt(s, keys)
  {
    InvShiftRows(state);
    InvSubBytes(state);
    AddRoundKey(state, key, 0);
  }

  // The nine full rounds that every key size performs.
  method NineInvRounds(state: array2<bv8>, key: seq<bv32>, ghost s: State, ghost keys: seq<State>)
    requires IsGrid(state) && 40 <= |key|
    requires 11 <= |keys| && forall n | 0 <= n < 10 :: keys[n] == RoundKey(key, 4 * n)
    requires View(state) == AES.Backward(s, keys, 10)
    modifies state
    ensures View(state) == AES.Backward(s, keys, 1)
  {
    InvFullRound(state, key, 36, s, keys);
    InvFullRound(state, key, 32, s, keys);
    InvFullRound(state, key, 28, s, keys);
    InvFullRound(state, key, 24, s, keys);
    InvFullRound(state, key, 20, s, keys);
    InvFullRound(state, key, 16, s, keys);
    InvFullRound(state, key, 12, s, keys);
    InvFullRound(state, key, 8, s, keys);
    InvFullRound(state, key, 4, s, keys);
  }

  // The last round key and the full rounds that only the longer keys have.
  method FirstInvRounds(state: array2<bv8>, key: seq<bv32>, keysize: int, ghost s: State, ghost keys: seq<State>)
    requires IsGrid(state) && DecryptsWith(key, keysize)
    requires |keys| == DecryptRounds(keysize) + 1
    requires forall n | 0 <= n < |keys| :: keys[n] == RoundKey(key, 4 * n)
    requires View(state) == s
    modifies state
    ensures View(state) == AES.Backward(s, keys, 10)
  {
    if keysize > 128 {
      if keysize > 192 {
        InvFirstKey(state, key, 56, s, keys);
        InvFullRound(state, key, 52, s, keys);
        InvFullRound(state, key, 48, s, keys);
      } else {
        InvFirstKey(state, key, 48, s, keys);
      }
      InvFullRound(state, key, 44, s, keys);
      InvFullRound(state, key, 40, s, keys);
    } else {
      InvFirstKey(state, key, 40, s, keys);
    }
  }

  method DecryptInPlace(state: array2<bv8>, key: seq<bv32>, keysize: int)
    requires IsGrid(state) && DecryptsWith(key, keysize)
    modifies state
    ensures View(state) == DecryptState(old(View(state)), key, keysize)
  {
    ghost var s := View(state);
    ghost var keys := RoundKeys(key, DecryptRounds(keysize));
    FirstInvRounds(state, key, keysize, s, keys);
    NineInvRounds(state, key, s, keys);
    InvLastRound(state, key, s, keys);
  }

  // aes_decrypt; `input` and `out` may be the same array.
  method AesDecrypt(input: array<bv8>, out: array<bv8>, key: seq<bv32>, keysize: int)
    requires input.Length >= 16 && out.Length >= 16 && DecryptsWith(key, keysize)
    modifies out
    ensures out[..16] == DecryptBlock(old(input[..16]), key, keysize)
    ensures out[16..] == old(out[16..])
  {
    var state := LoadState(input);
    DecryptInPlace(state, key, keysize);
    StoreState(state, out);
  }
}
