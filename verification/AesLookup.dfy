/**
 The facts about the tables of `aes.c` that the cipher rests on: the two substitution tables undo
 each other, and each column of `gf_mul` is multiplication by its coefficient in GF(2^8).
 */
module AesLookup {
  import opened AesTables
  import opened AesField

  // A table of 256 bytes looked up with a whole byte.

  function SubByte(b: bv8): bv8 { AesSbox(b >> 4, b & 0x0f) }

  function InvSubByte(b: bv8): bv8 { AesInvSbox(b >> 4, b & 0x0f) }

  function Lookup02(b: bv8): bv8 { GfMul02(b >> 4, b & 0x0f) }

  function Lookup03(b: bv8): bv8 { GfMul03(b >> 4, b & 0x0f) }

  function Lookup09(b: bv8): bv8 { GfMul09(b >> 4, b & 0x0f) }

  function Lookup0B(b: bv8): bv8 { GfMul0B(b >> 4, b & 0x0f) }

  function Lookup0D(b: bv8): bv8 { GfMul0D(b >> 4, b & 0x0f) }

  function Lookup0E(b: bv8): bv8 { GfMul0E(b >> 4, b & 0x0f) }

  lemma InvSubByteUndoesSubByteLow(b: bv8)
    requires b >> 7 == 0
    ensures InvSubByte(SubByte(b)) == b
  {
  }

  lemma InvSubByteUndoesSubByteHigh(b: bv8)
    requires b >> 7 == 1
    ensures InvSubByte(SubByte(b)) == b
  {
  }

  lemma InvSubByteUndoesSubByte(b: bv8)
    ensures InvSubByte(SubByte(b)) == b
  {
    if b >> 7 == 0 {
      InvSubByteUndoesSubByteLow(b);
    } else {
      InvSubByteUndoesSubByteHigh(b);
    }
  }

  lemma SubByteUndoesInvSubByteLow(b: bv8)
    requires b >> 7 == 0
    ensures SubByte(InvSubByte(b)) == b
  {
  }

  lemma SubByteUndoesInvSubByteHigh(b: bv8)
    requires b >> 7 == 1
    ensures SubByte(InvSubByte(b)) == b
  {
  }

  lemma SubByteUndoesInvSubByte(b: bv8)
    ensures SubByte(InvSubByte(b)) == b
  {
    if b >> 7 == 0 {
      SubByteUndoesInvSubByteLow(b);
    } else {
      SubByteUndoesInvSubByteHigh(b);
    }
  }

  lemma Lookup02IsBy02(b: bv8)
    ensures Lookup02(b) == By02(b)
  {
  }

  lemma Lookup03IsBy03(b: bv8)
    ensures Lookup03(b) == By03(b)
  {
  }

  lemma Lookup09IsBy09Low(b: bv8)
    requires b >> 7 == 0
    ensures Lookup09(b) == By09(b)
  {
  }

  lemma Lookup09IsBy09High(b: bv8)
    requires b >> 7 == 1
    ensures Lookup09(b) == By09(b)
  {
  }

  lemma Lookup09IsBy09(b: bv8)
    ensures Lookup09(b) == By09(b)
  {
    if b >> 7 == 0 {
      Lookup09IsBy09Low(b);
    } else {
      Lookup09IsBy09High(b);
    }
  }

  lemma Lookup0BIsBy0BLow(b: bv8)
    requires b >> 7 == 0
    ensures Lookup0B(b) == By0B(b)
  {
  }

  lemma Lookup0BIsBy0BHigh(b: bv8)
    requires b >> 7 == 1
    ensures Lookup0B(b) == By0B(b)
  {
  }

  lemma Lookup0BIsBy0B(b: bv8)
    ensures Lookup0B(b) == By0B(b)
  {
    if b >> 7 == 0 {
      Lookup0BIsBy0BLow(b);
    } else {
      Lookup0BIsBy0BHigh(b);
    }
  }

  lemma Lookup0DIsBy0DLow(b: bv8)
    requires b >> 7 == 0
    ensures Lookup0D(b) == By0D(b)
  {
  }

  lemma Lookup0DIsBy0DHigh(b: bv8)
    requires b >> 7 == 1
    ensures Lookup0D(b) == By0D(b)
  {
  }

  lemma Lookup0DIsBy0D(b: bv8)
    ensures Lookup0D(b) == By0D(b)
  {
    if b >> 7 == 0 {
      Lookup0DIsBy0DLow(b);
    } else {
      Lookup0DIsBy0DHigh(b);
    }
  }

  lemma Lookup0EIsBy0ELow(b: bv8)
    requires b >> 7 == 0
    ensures Lookup0E(b) == By0E(b)
  {
  }

  lemma Lookup0EIsBy0EHigh(b: bv8)
    requires b >> 7 == 1
    ensures Lookup0E(b) == By0E(b)
  {
  }

  lemma Lookup0EIsBy0E(b: bv8)
    ensures Lookup0E(b) == By0E(b)
  {
    if b >> 7 == 0 {
      Lookup0EIsBy0ELow(b);
    } else {
      Lookup0EIsBy0EHigh(b);
    }
  }

  // The fast form (the table) refines the simple one (the field): the column of `gf_mul` for a
  // coefficient holds the products with it.
  lemma TablesHoldFieldProducts(b: bv8)
    ensures Lookup02(b) == Times(0x02, b) && Lookup03(b) == Times(0x03, b)
    ensures Lookup09(b) == Times(0x09, b) && Lookup0B(b) == Times(0x0b, b)
    ensures Lookup0D(b) == Times(0x0d, b) && Lookup0E(b) == Times(0x0e, b)
  {
    Lookup02IsBy02(b);
    By02IsTimes(b);
    Lookup03IsBy03(b);
    By03IsTimes(b);
    Lookup09IsBy09(b);
    By09IsTimes(b);
    Lookup0BIsBy0B(b);
    By0BIsTimes(b);
    Lookup0DIsBy0D(b);
    By0DIsTimes(b);
    Lookup0EIsBy0E(b);
    By0EIsTimes(b);
  }
}
