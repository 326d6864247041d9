/**
 Key expansion (section 5.2 of FIPS 197) as `aes_key_setup` of `examples/aes_encrypt/aes.c`
 performs it, and its reversibility: any `nk` consecutive words determine the whole schedule.
 */
module AesKeySchedule {
  import opened AesTables
  import opened AesField
  import opened AesLookup
  import opened AesState

  // ---- Words ----

  function Xor(a: bv32, b: bv32): bv32 { a ^ b }

  lemma XorUndoesItself(a: bv32, b: bv32)
    ensures Xor(Xor(a, b), b) == a
  {
    assert Xor(a ^ b, b) == a;
  }

  // Big-endian packing of four bytes.
  function PackWord(b0: bv8, b1: bv8, b2: bv8, b3: bv8): bv32 {
    ((b0 as bv32) << 24) | ((b1 as bv32) << 16) | ((b2 as bv32) << 8) | (b3 as bv32)
  }

  lemma PackWordBytes(b0: bv8, b1: bv8, b2: bv8, b3: bv8)
    ensures WordColumn(PackWord(b0, b1, b2, b3)) == Column(b0, b1, b2, b3)
  {
  }

  // KE_ROTWORD
  function RotWord(x: bv32): bv32 { (x << 8) | (x >> 24) }

  lemma RotWordBytes(x: bv32)
    ensures var a := WordColumn(x); WordColumn(RotWord(x)) == Column(a.b1, a.b2, a.b3, a.b0)
  {
  }

  function Nibble(word: bv32, shift: bv32): bv8
    requires shift <= 28
  {
    ((word >> shift) & 0x0f) as bv8
  }

  // The sum by which SubWord puts four substituted bytes together, least significant byte first.
  function SumWord(b3: bv8, b2: bv8, b1: bv8, b0: bv8): bv32 {
    (b3 as bv32) + ((b2 as bv32) << 8) + ((b1 as bv32) << 16) + ((b0 as bv32) << 24)
  }

  lemma SumIsPack(b3: bv8, b2: bv8, b1: bv8, b0: bv8)
    ensures SumWord(b3, b2, b1, b0) == PackWord(b0, b1, b2, b3)
  {
  }

  function SubWord(word: bv32): bv32 {
    SumWord(AesSbox(Nibble(word, 4), Nibble(word, 0)), AesSbox(Nibble(word, 12), Nibble(word, 8)),
            AesSbox(Nibble(word, 20), Nibble(word, 16)), AesSbox(Nibble(word, 28), Nibble(word, 24)))
  }

  lemma NibblesOfBytes(word: bv32)
    ensures var a := WordColumn(word);
            && Nibble(word, 4) == a.b3 >> 4 && Nibble(word, 0) == a.b3 & 0x0f
            && Nibble(word, 12) == a.b2 >> 4 && Nibble(word, 8) == a.b2 & 0x0f
            && Nibble(word, 20) == a.b1 >> 4 && Nibble(word, 16) == a.b1 & 0x0f
            && Nibble(word, 28) == a.b0 >> 4 && Nibble(word, 24) == a.b0 & 0x0f
  {
  }

  // SubWord substitutes each byte of the word.
  lemma SubWordBytes(word: bv32)
    ensures WordColumn(SubWord(word)) == SubColumn(WordColumn(word))
  {
    hide AesSbox, SumWord, PackWord, WordColumn, Nibble;
    var a := WordColumn(word);
    NibblesOfBytes(word);
    SumIsPack(SubByte(a.b3), SubByte(a.b2), SubByte(a.b1), SubByte(a.b0));
    PackWordBytes(SubByte(a.b0), SubByte(a.b1), SubByte(a.b2), SubByte(a.b3));
  }

  const RCON: seq<bv32> := [
    0x01000000, 0x02000000, 0x04000000, 0x08000000, 0x10000000,
    0x20000000, 0x40000000, 0x80000000, 0x1b000000, 0x36000000,
    0x6c000000, 0xd8000000, 0xab000000, 0x4d000000, 0x9a000000]

  // The power x^n in GF(2^8).
  function PowerOfX(n: nat): bv8 {
    if n == 0 then 1 else Xtime(PowerOfX(n - 1))
  }

  // The round constants are the powers of x, in the first byte of a word.
  lemma {:induction false} RconIsPowerOfX(n: nat)
    requires n < 15
    ensures RCON[n] == PackWord(PowerOfX(n), 0, 0, 0)
  {
    if n > 0 {
      RconIsPowerOfX(n - 1);
    }
  }

  // ---- The expansion ----

  // What the word before position `i` contributes to word `i`.
  function Temp(previous: bv32, i: nat, nk: nat): bv32
    requires nk == 4 || nk == 6 || nk == 8
    requires nk <= i < 15 * nk
  {
    if i % nk == 0 then Xor(SubWord(RotWord(previous)), RCON[(i - 1) / nk])
    else if nk > 6 && i % nk == 4 then SubWord(previous)
    else previous
  }

  ghost predicate ExpandsAt(w: seq<bv32>, i: nat, nk: nat)
    requires nk == 4 || nk == 6 || nk == 8
    requires nk <= i < |w| <= 15 * nk
  {
    w[i] == Xor(w[i - nk], Temp(w[i - 1], i, nk))
  }

  ghost predicate IsExpansion(w: seq<bv32>, nk: nat)
    requires nk == 4 || nk == 6 || nk == 8
    requires |w| <= 15 * nk
  {
    forall i | nk <= i < |w| :: ExpandsAt(w, i, nk)
  }

  // Number of key words for a documented size, 0 for any other.
  function KeyWords(keysize: int): nat {
    if keysize == 128 then 4 else if keysize == 192 then 6 else if keysize == 256 then 8 else 0
  }

  function ScheduleLength(keysize: int): nat {
    if keysize == 128 then 44 else if keysize == 192 then 52 else if keysize == 256 then 60 else 0
  }

  function KeyWord(key: seq<bv8>, i: nat): bv32
    requires 4 * i + 4 <= |key|
  {
    PackWord(key[4 * i], key[4 * i + 1], key[4 * i + 2], key[4 * i + 3])
  }

  // What aes_key_setup leaves in `w`: the key, packed into words, and its expansion.
  ghost predicate IsSchedule(w: seq<bv32>, key: seq<bv8>, keysize: int)
    requires KeyWords(keysize) != 0 && |w| == ScheduleLength(keysize) && 4 * KeyWords(keysize) <= |key|
  {
    && (forall i | 0 <= i < KeyWords(keysize) :: w[i] == KeyWord(key, i))
    && IsExpansion(w, KeyWords(keysize))
  }

  lemma ExpansionGrows(w: seq<bv32>, next: bv32, nk: nat)
    requires nk == 4 || nk == 6 || nk == 8
    requires nk <= |w| < 15 * nk && IsExpansion(w, nk)
    requires next == Xor(w[|w| - nk], Temp(w[|w| - 1], |w|, nk))
    ensures IsExpansion(w + [next], nk)
  {
    hide Xor, Temp;
    var w' := w + [next];
    forall i | nk <= i < |w'|
      ensures ExpandsAt(w', i, nk)
    {
      if i < |w| {
        assert ExpandsAt(w, i, nk);
      }
    }
  }

  method NextTemp(previous: bv32, idx: nat, nk: nat) returns (temp: bv32)
    requires nk == 4 || nk == 6 || nk == 8
    requires nk <= idx < 15 * nk
    ensures temp == Temp(previous, idx, nk)
  {
    hide Xor, SubWord, RotWord;
    temp := previous;
    if idx % nk == 0 {
      temp := Xor(SubWord(RotWord(temp)), RCON[(idx - 1) / nk]);
    } else if nk > 6 && idx % nk == 4 {
      temp := SubWord(temp);
    }
  }

  // The second loop of aes_key_setup.
  method ExpandKey(w: array<bv32>, nk: nat, length: nat)
    requires nk == 4 || nk == 6 || nk == 8
    requires nk <= length <= w.Length && length <= 15 * nk
    modifies w
    ensures IsExpansion(w[..length], nk)
    ensures w[..nk] == old(w[..nk]) && w[length..] == old(w[length..])
  {
    hide Xor, Temp, IsExpansion;
    assert IsExpansion(w[..nk], nk) by { NothingExpanded(w[..nk], nk); }
    for idx := nk to length
      invariant IsExpansion(w[..idx], nk)
      invariant w[..nk] == old(w[..nk]) && w[length..] == old(w[length..])
    {
      ghost var before := w[..idx];
      var temp := NextTemp(w[idx - 1], idx, nk);
      ExpansionGrows(before, Xor(w[idx - nk], temp), nk);
      w[idx] := Xor(w[idx - nk], temp);
      assert w[..idx + 1] == before + [w[idx]];
    }
  }

  lemma NothingExpanded(w: seq<bv32>, nk: nat)
    requires nk == 4 || nk == 6 || nk == 8
    requires |w| == nk
    ensures IsExpansion(w, nk)
  {
  }

  // An unknown key size leaves the schedule as it was.
  method AesKeySetup(key: seq<bv8>, w: array<bv32>, keysize: int)
    requires 4 * KeyWords(keysize) <= |key| && ScheduleLength(keysize) <= w.Length
    modifies w
    ensures KeyWords(keysize) != 0 ==> IsSchedule(w[..ScheduleLength(keysize)], key, keysize)
    ensures w[ScheduleLength(keysize)..] == old(w[ScheduleLength(keysize)..])
  {
    hide Xor, Temp, PackWord;
    var nb := 4;
    var nr, nk;
    match keysize {
      case 128 => nr := 10; nk := 4;
      case 192 => nr := 12; nk := 6;
      case 256 => nr := 14; nk := 8;
      case _ => return;
    }

    for idx := 0 to nk
      invariant forall i | 0 <= i < idx :: w[i] == KeyWord(key, i)
      invariant w[nk..] == old(w[nk..])
    {
      w[idx] := PackWord(key[4 * idx], key[4 * idx + 1], key[4 * idx + 2], key[4 * idx + 3]);
    }
    assert w[nb * (nr + 1)..] == w[nk..][nb * (nr + 1) - nk..];
    ghost var words := w[..nk];

    ExpandKey(w, nk, nb * (nr + 1));
    forall i | 0 <= i < nk
      ensures w[i] == KeyWord(key, i)
    {
      assert w[i] == words[i];
    }
  }

  // ---- The expansion runs backwards as well ----

  // The word before a window of `nk` words that starts at position `p`.
  function Previous(window: seq<bv32>, p: nat, nk: nat): bv32
    requires nk == 4 || nk == 6 || nk == 8
    requires |window| == nk && 0 < p && p + nk <= 15 * nk
  {
    Xor(window[nk - 1], Temp(window[nk - 2], p + nk - 1, nk))
  }

  // The first `nk` words, recovered from the window at position `p`.
  function FirstWords(window: seq<bv32>, p: nat, nk: nat): (first: seq<bv32>)
    requires nk == 4 || nk == 6 || nk == 8
    requires |window| == nk && p + nk <= 15 * nk
    ensures |first| == nk
    decreases p
  {
    if p == 0 then window else FirstWords([Previous(window, p, nk)] + window[..nk - 1], p - 1, nk)
  }

  lemma {:induction false} FirstWordsRecovered(w: seq<bv32>, p: nat, nk: nat)
    requires nk == 4 || nk == 6 || nk == 8
    requires p + nk <= |w| <= 15 * nk && IsExpansion(w, nk)
    ensures FirstWords(w[p..p + nk], p, nk) == w[..nk]
  {
    hide Xor, Temp;
    if p == 0 {
    } else {
      var window := w[p..p + nk];
      assert ExpandsAt(w, p + nk - 1, nk);
      assert window[nk - 1] == w[p + nk - 1] && window[nk - 2] == w[p + nk - 2];
      XorUndoesItself(w[p - 1], Temp(w[p + nk - 2], p + nk - 1, nk));
      assert Previous(window, p, nk) == w[p - 1];
      assert w[p - 1..p - 1 + nk] == [w[p - 1]] + w[p..p + nk - 1] && window[..nk - 1] == w[p..p + nk - 1];
      FirstWordsRecovered(w, p - 1, nk);
    }
  }

  lemma {:induction false} FirstWordsDetermineAll(u: seq<bv32>, v: seq<bv32>, nk: nat, n: nat)
    requires nk == 4 || nk == 6 || nk == 8
    requires nk <= |u| == |v| <= 15 * nk && IsExpansion(u, nk) && IsExpansion(v, nk)
    requires u[..nk] == v[..nk] && n <= |u|
    ensures u[..n] == v[..n]
  {
    hide Xor, Temp;
    if n <= nk {
      assert u[..n] == u[..nk][..n];
      assert v[..n] == v[..nk][..n];
    } else {
      FirstWordsDetermineAll(u, v, nk, n - 1);
      assert u[n - 1 - nk] == u[..n - 1][n - 1 - nk] && v[n - 1 - nk] == v[..n - 1][n - 1 - nk];
      assert u[n - 2] == u[..n - 1][n - 2] && v[n - 2] == v[..n - 1][n - 2];
      assert ExpandsAt(u, n - 1, nk) && ExpandsAt(v, n - 1, nk);
      assert u[..n] == u[..n - 1] + [u[n - 1]] && v[..n] == v[..n - 1] + [v[n - 1]];
    }
  }

  lemma WindowDeterminesWords(u: seq<bv32>, v: seq<bv32>, nk: nat, p: nat)
    requires nk == 4 || nk == 6 || nk == 8
    requires p + nk <= |u| == |v| <= 15 * nk && IsExpansion(u, nk) && IsExpansion(v, nk)
    requires u[p..p + nk] == v[p..p + nk]
    ensures u == v
  {
    hide IsExpansion, FirstWords;
    FirstWordsRecovered(u, p, nk);
    FirstWordsRecovered(v, p, nk);
    FirstWordsDetermineAll(u, v, nk, |u|);
    assert u == u[..|u|] && v == v[..|v|];
  }

  // Any nk consecutive words, at the same place in two schedules, determine both schedules and
  // the keys they come from; so distinct keys have distinct schedules, in every window.
  lemma WindowDeterminesSchedule(u: seq<bv32>, v: seq<bv32>, key: seq<bv8>, key': seq<bv8>, keysize: int, p: nat)
    requires KeyWords(keysize) != 0 && |key| == |key'| == 4 * KeyWords(keysize)
    requires |u| == |v| == ScheduleLength(keysize) && p + KeyWords(keysize) <= |u|
    requires IsSchedule(u, key, keysize) && IsSchedule(v, key', keysize)
    requires u[p..p + KeyWords(keysize)] == v[p..p + KeyWords(keysize)]
    ensures u == v
    ensures key == key'
  {
    hide KeyWord, IsExpansion;
    WindowDeterminesWords(u, v, KeyWords(keysize), p);
    SameKeys(u, key, key', keysize);
  }

  lemma SameKeys(w: seq<bv32>, key: seq<bv8>, key': seq<bv8>, keysize: int)
    requires KeyWords(keysize) != 0 && |key| == |key'| == 4 * KeyWords(keysize)
    requires |w| == ScheduleLength(keysize)
    requires IsSchedule(w, key, keysize) && IsSchedule(w, key', keysize)
    ensures key == key'
  {
    hide PackWord, IsExpansion;
    forall i | 0 <= i < |key|
      ensures key[i] == key'[i]
    {
      SameKeyWord(key, key', i / 4);
    }
  }

  lemma SameKeyWord(key: seq<bv8>, key': seq<bv8>, i: nat)
    requires |key| == |key'| && 4 * i + 4 <= |key| && KeyWord(key, i) == KeyWord(key', i)
    ensures forall j | 4 * i <= j < 4 * i + 4 :: key[j] == key'[j]
  {
    hide PackWord, WordColumn;
    PackWordBytes(key[4 * i], key[4 * i + 1], key[4 * i + 2], key[4 * i + 3]);
    PackWordBytes(key'[4 * i], key'[4 * i + 1], key'[4 * i + 2], key'[4 * i + 3]);
  }

  // ---- The schedule as a function of the key ----

  ghost function Expanded(first: seq<bv32>, nk: nat, length: nat): (w: seq<bv32>)
    requires nk == 4 || nk == 6 || nk == 8
    requires |first| == nk <= length <= 15 * nk
    ensures |w| == length
  {
    if length == nk then first
    else
      var w := Expanded(first, nk, length - 1);
      w + [Xor(w[|w| - nk], Temp(w[|w| - 1], |w|, nk))]
  }

  lemma {:induction false} ExpandedIsExpansion(first: seq<bv32>, nk: nat, length: nat)
    requires nk == 4 || nk == 6 || nk == 8
    requires |first| == nk <= length <= 15 * nk
    ensures IsExpansion(Expanded(first, nk, length), nk)
    ensures Expanded(first, nk, length)[..nk] == first
  {
    hide Xor, Temp, IsExpansion;
    if length == nk {
      NothingExpanded(first, nk);
    } else {
      ExpandedIsExpansion(first, nk, length - 1);
      var w := Expanded(first, nk, length - 1);
      ExpansionGrows(w, Xor(w[|w| - nk], Temp(w[|w| - 1], |w|, nk)), nk);
      assert Expanded(first, nk, length)[..nk] == w[..nk];
    }
  }

  ghost function PackedKey(key: seq<bv8>, nk: nat): (w: seq<bv32>)
    requires 4 * nk <= |key|
    ensures |w| == nk && forall i | 0 <= i < nk :: w[i] == KeyWord(key, i)
  {
    seq(nk, i requires 0 <= i < nk => KeyWord(key, i))
  }

  ghost function KeySchedule(key: seq<bv8>, keysize: int): (w: seq<bv32>)
    requires KeyWords(keysize) != 0 && 4 * KeyWords(keysize) <= |key|
    ensures |w| == ScheduleLength(keysize)
  {
    Expanded(PackedKey(key, KeyWords(keysize)), KeyWords(keysize), ScheduleLength(keysize))
  }

  // There is exactly one schedule for a key.
  lemma ScheduleIsUnique(w: seq<bv32>, key: seq<bv8>, keysize: int)
    requires KeyWords(keysize) != 0 && 4 * KeyWords(keysize) <= |key| && |w| == ScheduleLength(keysize)
    ensures IsSchedule(w, key, keysize) <==> w == KeySchedule(key, keysize)
  {
    hide Xor, Temp, KeyWord, IsExpansion;
    var nk := KeyWords(keysize);
    var first := PackedKey(key, nk);
    var s := KeySchedule(key, keysize);
    ExpandedIsExpansion(first, nk, |s|);
    forall i | 0 <= i < nk
      ensures s[i] == KeyWord(key, i)
    {
      assert s[i] == s[..nk][i];
    }
    if IsSchedule(w, key, keysize) {
      assert w[..nk] == first;
      FirstWordsDetermineAll(w, s, nk, |w|);
      assert w == w[..|w|] && s == s[..|w|];
    }
  }
}
