/**
 The AES state and the steps of a round (section 5 of FIPS 197), as `examples/aes_encrypt/aes.c`
 performs them in place on `state[4][4]`. Each step is a function on states, with its inverse, and
 a method that changes a 4 by 4 array and is proved to compute that function.
 */
module AesState {
  import opened AesField
  import opened AesLookup

  // The state by columns: entry `state[r][c]` of the array is byte `r` of column `c`.
  datatype Column = Column(b0: bv8, b1: bv8, b2: bv8, b3: bv8)
  datatype State = State(c0: Column, c1: Column, c2: Column, c3: Column)

  // ---- The steps as functions ----

  function AddColumn(a: Column, k: Column): Column {
    Column(Add(a.b0, k.b0), Add(a.b1, k.b1), Add(a.b2, k.b2), Add(a.b3, k.b3))
  }

  function AddKey(s: State, k: State): State {
    State(AddColumn(s.c0, k.c0), AddColumn(s.c1, k.c1), AddColumn(s.c2, k.c2), AddColumn(s.c3, k.c3))
  }

  function SubColumn(a: Column): Column {
    Column(SubByte(a.b0), SubByte(a.b1), SubByte(a.b2), SubByte(a.b3))
  }

  function InvSubColumn(a: Column): Column {
    Column(InvSubByte(a.b0), InvSubByte(a.b1), InvSubByte(a.b2), InvSubByte(a.b3))
  }

  function Substituted(s: State): State {
    State(SubColumn(s.c0), SubColumn(s.c1), SubColumn(s.c2), SubColumn(s.c3))
  }

  function InvSubstituted(s: State): State {
    State(InvSubColumn(s.c0), InvSubColumn(s.c1), InvSubColumn(s.c2), InvSubColumn(s.c3))
  }

  // Row `r` rotates left by `r` places.
  function Shifted(s: State): State {
    State(Column(s.c0.b0, s.c1.b1, s.c2.b2, s.c3.b3), Column(s.c1.b0, s.c2.b1, s.c3.b2, s.c0.b3),
          Column(s.c2.b0, s.c3.b1, s.c0.b2, s.c1.b3), Column(s.c3.b0, s.c0.b1, s.c1.b2, s.c2.b3))
  }

  function InvShifted(s: State): State {
    State(Column(s.c0.b0, s.c3.b1, s.c2.b2, s.c1.b3), Column(s.c1.b0, s.c0.b1, s.c3.b2, s.c2.b3),
          Column(s.c2.b0, s.c1.b1, s.c0.b2, s.c3.b3), Column(s.c3.b0, s.c2.b1, s.c1.b2, s.c0.b3))
  }

  function MixedColumn(a: Column): Column {
    Column(MixRow(a.b0, a.b1, a.b2, a.b3), MixRow(a.b1, a.b2, a.b3, a.b0),
           MixRow(a.b2, a.b3, a.b0, a.b1), MixRow(a.b3, a.b0, a.b1, a.b2))
  }

  function InvMixedColumn(a: Column): Column {
    Column(InvMixRow(a.b0, a.b1, a.b2, a.b3), InvMixRow(a.b1, a.b2, a.b3, a.b0),
           InvMixRow(a.b2, a.b3, a.b0, a.b1), InvMixRow(a.b3, a.b0, a.b1, a.b2))
  }

  function Mixed(s: State): State {
    State(MixedColumn(s.c0), MixedColumn(s.c1), MixedColumn(s.c2), MixedColumn(s.c3))
  }

  function InvMixed(s: State): State {
    State(InvMixedColumn(s.c0), InvMixedColumn(s.c1), InvMixedColumn(s.c2), InvMixedColumn(s.c3))
  }

  // ---- Each step has an inverse ----

  lemma AddKeyUndoesItself(s: State, k: State)
    ensures AddKey(AddKey(s, k), k) == s
  {
    forall a: bv8, b: bv8
      ensures Add(Add(a, b), b) == a
    {
      AddUndoesItself(a, b);
    }
  }

  lemma SubstitutionsAreInverse(s: State)
    ensures InvSubstituted(Substituted(s)) == s
    ensures Substituted(InvSubstituted(s)) == s
  {
    SubColumnsAreInverse(s.c0);
    SubColumnsAreInverse(s.c1);
    SubColumnsAreInverse(s.c2);
    SubColumnsAreInverse(s.c3);
  }

  lemma SubColumnsAreInverse(a: Column)
    ensures InvSubColumn(SubColumn(a)) == a
    ensures SubColumn(InvSubColumn(a)) == a
  {
    InvSubByteUndoesSubByte(a.b0);
    InvSubByteUndoesSubByte(a.b1);
    InvSubByteUndoesSubByte(a.b2);
    InvSubByteUndoesSubByte(a.b3);
    SubByteUndoesInvSubByte(a.b0);
    SubByteUndoesInvSubByte(a.b1);
    SubByteUndoesInvSubByte(a.b2);
    SubByteUndoesInvSubByte(a.b3);
  }

  lemma ShiftsAreInverse(s: State)
    ensures InvShifted(Shifted(s)) == s
    ensures Shifted(InvShifted(s)) == s
  {
  }

  lemma MixColumnsAreInverse(a: Column)
    ensures InvMixedColumn(MixedColumn(a)) == a
    ensures MixedColumn(InvMixedColumn(a)) == a
  {
    InvMixRowUndoesMix(a.b0, a.b1, a.b2, a.b3);
    InvMixRowUndoesMix(a.b1, a.b2, a.b3, a.b0);
    InvMixRowUndoesMix(a.b2, a.b3, a.b0, a.b1);
    InvMixRowUndoesMix(a.b3, a.b0, a.b1, a.b2);
    MixRowUndoesInvMix(a.b0, a.b1, a.b2, a.b3);
    MixRowUndoesInvMix(a.b1, a.b2, a.b3, a.b0);
    MixRowUndoesInvMix(a.b2, a.b3, a.b0, a.b1);
    MixRowUndoesInvMix(a.b3, a.b0, a.b1, a.b2);
  }

  // MixColumns and InvMixColumns undo each other on every state.
  lemma MixesAreInverse(s: State)
    ensures InvMixed(Mixed(s)) == s
    ensures Mixed(InvMixed(s)) == s
  {
    MixColumnsAreInverse(s.c0);
    MixColumnsAreInverse(s.c1);
    MixColumnsAreInverse(s.c2);
    MixColumnsAreInverse(s.c3);
  }

  lemma MixRowIsProduct(a: bv8, b: bv8, c: bv8, d: bv8)
    ensures MixRow(a, b, c, d) == Sum4(Times(0x02, a), Times(0x03, b), c, d)
  {
    hide By02, By03, Times, Sum4;
    By02IsTimes(a);
    By03IsTimes(b);
  }

  lemma InvMixRowIsProduct(a: bv8, b: bv8, c: bv8, d: bv8)
    ensures InvMixRow(a, b, c, d) == Sum4(Times(0x0e, a), Times(0x0b, b), Times(0x0d, c), Times(0x09, d))
  {
    hide By0E, By0B, By0D, By09, Times, Sum4;
    By0EIsTimes(a);
    By0BIsTimes(b);
    By0DIsTimes(c);
    By09IsTimes(d);
  }

  // The matrix of section 5.1.3 of FIPS 197, with the products taken in GF(2^8).
  lemma MixIsMatrixProduct(a: Column)
    ensures MixedColumn(a) == Column(
      Sum4(Times(0x02, a.b0), Times(0x03, a.b1), a.b2, a.b3),
      Sum4(Times(0x02, a.b1), Times(0x03, a.b2), a.b3, a.b0),
      Sum4(Times(0x02, a.b2), Times(0x03, a.b3), a.b0, a.b1),
      Sum4(Times(0x02, a.b3), Times(0x03, a.b0), a.b1, a.b2))
  {
    hide MixRow, Times, Sum4;
    MixRowIsProduct(a.b0, a.b1, a.b2, a.b3);
    MixRowIsProduct(a.b1, a.b2, a.b3, a.b0);
    MixRowIsProduct(a.b2, a.b3, a.b0, a.b1);
    MixRowIsProduct(a.b3, a.b0, a.b1, a.b2);
  }

  // The matrix of section 5.3.3 of FIPS 197.
  lemma InvMixIsMatrixProduct(a: Column)
    ensures InvMixedColumn(a) == Column(
      Sum4(Times(0x0e, a.b0), Times(0x0b, a.b1), Times(0x0d, a.b2), Times(0x09, a.b3)),
      Sum4(Times(0x0e, a.b1), Times(0x0b, a.b2), Times(0x0d, a.b3), Times(0x09, a.b0)),
      Sum4(Times(0x0e, a.b2), Times(0x0b, a.b3), Times(0x0d, a.b0), Times(0x09, a.b1)),
      Sum4(Times(0x0e, a.b3), Times(0x0b, a.b0), Times(0x0d, a.b1), Times(0x09, a.b2)))
  {
    hide InvMixRow, Times, Sum4;
    InvMixRowIsProduct(a.b0, a.b1, a.b2, a.b3);
    InvMixRowIsProduct(a.b1, a.b2, a.b3, a.b0);
    InvMixRowIsProduct(a.b2, a.b3, a.b0, a.b1);
    InvMixRowIsProduct(a.b3, a.b0, a.b1, a.b2);
  }

  // ---- The steps in place ----

  predicate IsGrid(state: array2<bv8>) {
    state.Length0 == 4 && state.Length1 == 4
  }

  function ColumnOf(state: array2<bv8>, c: nat): Column
    requires IsGrid(state) && c < 4
    reads state
  {
    Column(state[0, c], state[1, c], state[2, c], state[3, c])
  }

  ghost function View(state: array2<bv8>): State
    requires IsGrid(state)
    reads state
  {
    State(ColumnOf(state, 0), ColumnOf(state, 1), ColumnOf(state, 2), ColumnOf(state, 3))
  }

  // The four bytes of a word of the key schedule, most significant byte first.
  function WordColumn(w: bv32): Column {
    Column(((w >> 24) & 0xff) as bv8, ((w >> 16) & 0xff) as bv8, ((w >> 8) & 0xff) as bv8, (w & 0xff) as bv8)
  }

  function RoundKey(w: seq<bv32>, from: nat): State
    requires from + 4 <= |w|
  {
    State(WordColumn(w[from]), WordColumn(w[from + 1]), WordColumn(w[from + 2]), WordColumn(w[from + 3]))
  }

  // The block of AddRoundKey for column `c`.
  method AddSubkey(state: array2<bv8>, c: nat, w: bv32)
    requires IsGrid(state) && c < 4
    modifies state
    ensures state[0, c] == Add(old(state[0, c]), WordColumn(w).b0)
    ensures state[1, c] == Add(old(state[1, c]), WordColumn(w).b1)
    ensures state[2, c] == Add(old(state[2, c]), WordColumn(w).b2)
    ensures state[3, c] == Add(old(state[3, c]), WordColumn(w).b3)
    ensures forall i, j | 0 <= i < 4 && 0 <= j < 4 && j != c :: state[i, j] == old(state[i, j])
  {
    var subkey := WordColumn(w);
    state[0, c] := state[0, c] ^ subkey.b0;
    state[1, c] := state[1, c] ^ subkey.b1;
    state[2, c] := state[2, c] ^ subkey.b2;
    state[3, c] := state[3, c] ^ subkey.b3;
  }

  method AddRoundKey(state: array2<bv8>, w: seq<bv32>, from: nat)
    requires IsGrid(state) && from + 4 <= |w|
    modifies state
    ensures View(state) == AddKey(old(View(state)), RoundKey(w, from))
  {
    AddSubkey(state, 0, w[from]);
    AddSubkey(state, 1, w[from + 1]);
    AddSubkey(state, 2, w[from + 2]);
    AddSubkey(state, 3, w[from + 3]);
  }

  // The substitutions of SubBytes in row `r`.
  method SubRow(state: array2<bv8>, r: nat)
    requires IsGrid(state) && r < 4
    modifies state
    ensures state[r, 0] == SubByte(old(state[r, 0]))
    ensures state[r, 1] == SubByte(old(state[r, 1]))
    ensures state[r, 2] == SubByte(old(state[r, 2]))
    ensures state[r, 3] == SubByte(old(state[r, 3]))
    ensures forall i, j | 0 <= i < 4 && 0 <= j < 4 && i != r :: state[i, j] == old(state[i, j])
  {
    state[r, 0] := SubByte(state[r, 0]);
    state[r, 1] := SubByte(state[r, 1]);
    state[r, 2] := SubByte(state[r, 2]);
    state[r, 3] := SubByte(state[r, 3]);
  }

  method SubBytes(state: array2<bv8>)
    requires IsGrid(state)
    modifies state
    ensures View(state) == Substituted(old(View(state)))
  {
    SubRow(state, 0);
    SubRow(state, 1);
    SubRow(state, 2);
    SubRow(state, 3);
  }

  method InvSubRow(state: array2<bv8>, r: nat)
    requires IsGrid(state) && r < 4
    modifies state
    ensures state[r, 0] == InvSubByte(old(state[r, 0]))
    ensures state[r, 1] == InvSubByte(old(state[r, 1]))
    ensures state[r, 2] == InvSubByte(old(state[r, 2]))
    ensures state[r, 3] == InvSubByte(old(state[r, 3]))
    ensures forall i, j | 0 <= i < 4 && 0 <= j < 4 && i != r :: state[i, j] == old(state[i, j])
  {
    state[r, 0] := InvSubByte(state[r, 0]);
    state[r, 1] := InvSubByte(state[r, 1]);
    state[r, 2] := InvSubByte(state[r, 2]);
    state[r, 3] := InvSubByte(state[r, 3]);
  }

  method InvSubBytes(state: array2<bv8>)
    requires IsGrid(state)
    modifies state
    ensures View(state) == InvSubstituted(old(View(state)))
  {
    InvSubRow(state, 0);
    InvSubRow(state, 1);
    InvSubRow(state, 2);
    InvSubRow(state, 3);
  }

  // Row `r` moves left by `n` places, the other rows stay.
  twostate predicate RowRotated(state: array2<bv8>, r: nat, n: nat)
    requires IsGrid(state) && r < 4
    reads state
  {
    && (forall j | 0 <= j < 4 :: state[r, j] == old(state[r, (j + n) % 4]))
    && (forall i, j | 0 <= i < 4 && 0 <= j < 4 && i != r :: state[i, j] == old(state[i, j]))
  }

  // Shift left by 1
  method ShiftRow1(state: array2<bv8>)
    requires IsGrid(state)
    modifies state
    ensures RowRotated(state, 1, 1)
  {
    var t := state[1, 0];
    state[1, 0] := state[1, 1];
    state[1, 1] := state[1, 2];
    state[1, 2] := state[1, 3];
    state[1, 3] := t;
  }

  // Shift left by 2
  method ShiftRow2(state: array2<bv8>)
    requires IsGrid(state)
    modifies state
    ensures RowRotated(state, 2, 2)
  {
    var t := state[2, 0];
    state[2, 0] := state[2, 2];
    state[2, 2] := t;
    t := state[2, 1];
    state[2, 1] := state[2, 3];
    state[2, 3] := t;
  }

  // Shift left by 3
  method ShiftRow3(state: array2<bv8>)
    requires IsGrid(state)
    modifies state
    ensures RowRotated(state, 3, 3)
  {
    var t := state[3, 0];
    state[3, 0] := state[3, 3];
    state[3, 3] := state[3, 2];
    state[3, 2] := state[3, 1];
    state[3, 1] := t;
  }

  method ShiftRows(state: array2<bv8>)
    requires IsGrid(state)
    modifies state
    ensures View(state) == Shifted(old(View(state)))
  {
    ShiftRow1(state);
    ShiftRow2(state);
    ShiftRow3(state);
  }

  // Shift right by 1
  method InvShiftRow1(state: array2<bv8>)
    requires IsGrid(state)
    modifies state
    ensures RowRotated(state, 1, 3)
  {
    var t := state[1, 3];
    state[1, 3] := state[1, 2];
    state[1, 2] := state[1, 1];
    state[1, 1] := state[1, 0];
    state[1, 0] := t;
  }

  // Shift right by 2
  method InvShiftRow2(state: array2<bv8>)
    requires IsGrid(state)
    modifies state
    ensures RowRotated(state, 2, 2)
  {
    var t := state[2, 3];
    state[2, 3] := state[2, 1];
    state[2, 1] := t;
    t := state[2, 2];
    state[2, 2] := state[2, 0];
    state[2, 0] := t;
  }

  // Shift right by 3
  method InvShiftRow3(state: array2<bv8>)
    requires IsGrid(state)
    modifies state
    ensures RowRotated(state, 3, 1)
  {
    var t := state[3, 3];
    state[3, 3] := state[3, 0];
    state[3, 0] := state[3, 1];
    state[3, 1] := state[3, 2];
    state[3, 2] := t;
  }

  method InvShiftRows(state: array2<bv8>)
    requires IsGrid(state)
    modifies state
    ensures View(state) == InvShifted(old(View(state)))
  {
    InvShiftRow1(state);
    InvShiftRow2(state);
    InvShiftRow3(state);
  }

  // One entry of (Inv)MixColumns: the four terms are added up in the array.
  method AccumulateEntry(state: array2<bv8>, r: nat, c: nat, x0: bv8, x1: bv8, x2: bv8, x3: bv8)
    requires IsGrid(state) && r < 4 && c < 4
    modifies state
    ensures state[r, c] == Sum4(x0, x1, x2, x3)
    ensures forall i, j | 0 <= i < 4 && 0 <= j < 4 && (i, j) != (r, c) :: state[i, j] == old(state[i, j])
  {
    state[r, c] := x0;
    state[r, c] := state[r, c] ^ x1;
    state[r, c] := state[r, c] ^ x2;
    state[r, c] := state[r, c] ^ x3;
    assert Add(x0 ^ x1, x2 ^ x3) == x0 ^ x1 ^ x2 ^ x3;
  }

  lemma LookupsMix(a: bv8, b: bv8, c: bv8, d: bv8)
    ensures Sum4(Lookup02(a), Lookup03(b), c, d) == MixRow(a, b, c, d)
    ensures Sum4(d, Lookup02(a), Lookup03(b), c) == MixRow(a, b, c, d)
    ensures Sum4(c, d, Lookup02(a), Lookup03(b)) == MixRow(a, b, c, d)
    ensures Sum4(Lookup03(b), c, d, Lookup02(a)) == MixRow(a, b, c, d)
  {
    Lookup02IsBy02(a);
    Lookup03IsBy03(b);
    Rotate(Lookup02(a), Lookup03(b), c, d);
    Rotate(d, Lookup02(a), Lookup03(b), c);
    Rotate(Lookup03(b), c, d, Lookup02(a));
  }

  // One entry of InvMixColumns. The source writes the four terms from the first byte of the column
  // on; here they are taken in the order of their coefficients 0e, 0b, 0d, 09.
  method InvMixEntry(state: array2<bv8>, r: nat, c: nat, x0: bv8, x1: bv8, x2: bv8, x3: bv8)
    requires IsGrid(state) && r < 4 && c < 4
    modifies state
    ensures state[r, c] == InvMixRow(x0, x1, x2, x3)
    ensures forall i, j | 0 <= i < 4 && 0 <= j < 4 && (i, j) != (r, c) :: state[i, j] == old(state[i, j])
  {
    AccumulateEntry(state, r, c, Lookup0E(x0), Lookup0B(x1), Lookup0D(x2), Lookup09(x3));
    Lookup0EIsBy0E(x0);
    Lookup0BIsBy0B(x1);
    Lookup0DIsBy0D(x2);
    Lookup09IsBy09(x3);
  }

  // The block of MixColumns for column `c`.
  method MixColumn(state: array2<bv8>, c: nat)
    requires IsGrid(state) && c < 4
    modifies state
    ensures ColumnOf(state, c) == MixedColumn(old(ColumnOf(state, c)))
    ensures forall i, j | 0 <= i < 4 && 0 <= j < 4 && j != c :: state[i, j] == old(state[i, j])
  {
    hide Lookup02, Lookup03, MixRow, Sum4;
    var col := ColumnOf(state, c);
    AccumulateEntry(state, 0, c, Lookup02(col.b0), Lookup03(col.b1), col.b2, col.b3);
    AccumulateEntry(state, 1, c, col.b0, Lookup02(col.b1), Lookup03(col.b2), col.b3);
    AccumulateEntry(state, 2, c, col.b0, col.b1, Lookup02(col.b2), Lookup03(col.b3));
    AccumulateEntry(state, 3, c, Lookup03(col.b0), col.b1, col.b2, Lookup02(col.b3));
    LookupsMix(col.b0, col.b1, col.b2, col.b3);
    LookupsMix(col.b1, col.b2, col.b3, col.b0);
    LookupsMix(col.b2, col.b3, col.b0, col.b1);
    LookupsMix(col.b3, col.b0, col.b1, col.b2);
  }

  method MixColumns(state: array2<bv8>)
    requires IsGrid(state)
    modifies state
    ensures View(state) == Mixed(old(View(state)))
  {
    hide MixedColumn;
    MixColumn(state, 0);
    MixColumn(state, 1);
    MixColumn(state, 2);
    MixColumn(state, 3);
  }

  // The block of InvMixColumns for column `c`.
  method InvMixColumn(state: array2<bv8>, c: nat)
    requires IsGrid(state) && c < 4
    modifies state
    ensures ColumnOf(state, c) == InvMixedColumn(old(ColumnOf(state, c)))
    ensures forall i, j | 0 <= i < 4 && 0 <= j < 4 && j != c :: state[i, j] == old(state[i, j])
  {
    hide InvMixRow;
    var col := ColumnOf(state, c);
    InvMixEntry(state, 0, c, col.b0, col.b1, col.b2, col.b3);
    InvMixEntry(state, 1, c, col.b1, col.b2, col.b3, col.b0);
    InvMixEntry(state, 2, c, col.b2, col.b3, col.b0, col.b1);
    InvMixEntry(state, 3, c, col.b3, col.b0, col.b1, col.b2);
  }

  method InvMixColumns(state: array2<bv8>)
    requires IsGrid(state)
    modifies state
    ensures View(state) == InvMixed(old(View(state)))
  {
    hide InvMixedColumn;
    InvMixColumn(state, 0);
    InvMixColumn(state, 1);
    InvMixColumn(state, 2);
    InvMixColumn(state, 3);
  }
}
