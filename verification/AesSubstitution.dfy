/**
 The substitution of section 5.1.1 of FIPS 197, defined in GF(2^8): the multiplicative inverse and
 then an affine map over GF(2). The table of `aes.c` is measured against it.
 */
module AesSubstitution {
  import opened AesField
  import opened AesLookup

  // ---- Multiplication distributes over addition ----

  lemma Swap16(p: bv16, q: bv16, m: bv16)
    ensures Add16(Add16(p, q), m) == Add16(Add16(p, m), q)
  {
    assert Add16(p ^ q, m) == Add16(p ^ m, q);
  }

  lemma Associates16(p: bv16, q: bv16, m: bv16)
    ensures Add16(Add16(p, q), m) == Add16(p, Add16(q, m))
  {
    assert Add16(p ^ q, m) == Add16(p, q ^ m);
  }

  lemma Undo16(p: bv16, m: bv16)
    ensures Add16(Add16(p, m), m) == p
  {
    assert Add16(p ^ m, m) == p;
  }

  function AddWhen(c: bool, p: bv16, m: bv16): bv16 { if c then Add16(p, m) else p }

  lemma AddWhenAdds(c: bool, d: bool, p: bv16, q: bv16, m: bv16)
    ensures AddWhen(c != d, Add16(p, q), m) == Add16(AddWhen(c, p, m), AddWhen(d, q, m))
  {
    hide Add16;
    Swap16(p, q, m);
    Associates16(p, q, m);
    Swap16(p, m, Add16(q, m));
    Undo16(Add16(p, q), m);
  }

  function Coefficient(p: bv16, i: bv16): bool
    requires 8 <= i <= 14
  {
    (p >> i) & 1 == 1
  }

  lemma CancelIsAddWhen(p: bv16, i: bv16)
    requires 8 <= i <= 14
    ensures Cancel(p, i) == AddWhen(Coefficient(p, i), p, 0x11b << (i - 8))
  {
  }

  lemma CoefficientAdds(p: bv16, q: bv16, i: bv16)
    requires 8 <= i <= 14
    ensures Coefficient(Add16(p, q), i) <==> Coefficient(p, i) != Coefficient(q, i)
  {
  }

  lemma CancelAdds(p: bv16, q: bv16, i: bv16)
    requires 8 <= i <= 14
    ensures Cancel(Add16(p, q), i) == Add16(Cancel(p, i), Cancel(q, i))
  {
    hide *;
    CoefficientAdds(p, q, i);
    CancelIsAddWhen(p, i);
    CancelIsAddWhen(q, i);
    CancelIsAddWhen(Add16(p, q), i);
    AddWhenAdds(Coefficient(p, i), Coefficient(q, i), p, q, 0x11b << (i - 8));
  }

  lemma LowByteAdds(p: bv16, q: bv16)
    ensures (Add16(p, q) & 0xff) as bv8 == Add((p & 0xff) as bv8, (q & 0xff) as bv8)
  {
  }

  lemma ReduceAdds(p: bv16, q: bv16)
    ensures Reduce(Add16(p, q)) == Add(Reduce(p), Reduce(q))
  {
    hide Cancel, Add16, Add;
    var p14, q14 := Cancel(p, 14), Cancel(q, 14);
    CancelAdds(p, q, 14);
    var p13, q13 := Cancel(p14, 13), Cancel(q14, 13);
    CancelAdds(p14, q14, 13);
    var p12, q12 := Cancel(p13, 12), Cancel(q13, 12);
    CancelAdds(p13, q13, 12);
    var p11, q11 := Cancel(p12, 11), Cancel(q12, 11);
    CancelAdds(p12, q12, 11);
    var p10, q10 := Cancel(p11, 10), Cancel(q11, 10);
    CancelAdds(p11, q11, 10);
    var p9, q9 := Cancel(p10, 9), Cancel(q10, 9);
    CancelAdds(p10, q10, 9);
    CancelAdds(p9, q9, 8);
    LowByteAdds(Cancel(p9, 8), Cancel(q9, 8));
  }

  // Multiplication by x^n.
  function Doubled(b: bv8, n: nat): bv8 { if n == 0 then b else Xtime(Doubled(b, n - 1)) }

  // What the bit `i` of `a` contributes, but for the power of x.
  function Term(a: bv8, b: bv8, i: bv8): bv8
    requires i < 8
  {
    if (a >> i) & 1 == 1 then b else 0
  }

  function Step(h: bv8, t: bv8): bv8 { (if h & 0x80 == 0x80 then (h << 1) ^ 0x1b else h << 1) ^ t }

  lemma StepIs(h: bv8, t: bv8)
    ensures Step(h, t) == Add(Xtime(h), t)
  {
  }

  // The product by doubling and adding, from the highest bit down.
  function Horner(a: bv8, b: bv8): bv8 {
    Step(Step(Step(Step(Step(Step(Step(Term(a, b, 7), Term(a, b, 6)), Term(a, b, 5)), Term(a, b, 4)),
                        Term(a, b, 3)), Term(a, b, 2)), Term(a, b, 1)), Term(a, b, 0))
  }

  lemma Powers(b: bv8)
    ensures Doubled(b, 2) == Xtime(Xtime(b)) && Doubled(b, 3) == Xtime(Xtime(Xtime(b)))
    ensures Doubled(b, 4) == Xtime(Xtime(Xtime(Xtime(b))))
    ensures Doubled(b, 5) == Xtime(Xtime(Xtime(Xtime(Xtime(b)))))
    ensures Doubled(b, 6) == Xtime(Xtime(Xtime(Xtime(Xtime(Xtime(b))))))
    ensures Doubled(b, 7) == Xtime(Xtime(Xtime(Xtime(Xtime(Xtime(Xtime(b)))))))
  {
    hide Xtime;
    assert Doubled(b, 1) == Xtime(b);
    assert Doubled(b, 3) == Xtime(Doubled(b, 2));
    assert Doubled(b, 5) == Xtime(Doubled(b, 4));
    assert Doubled(b, 7) == Xtime(Doubled(b, 6));
  }

  lemma Term0(a: bv8, b: bv8)
    ensures Reduce(Partial(a, b, 0)) == Doubled(Term(a, b, 0), 0)
  {
  }

  lemma Term1(a: bv8, b: bv8)
    ensures Reduce(Partial(a, b, 1)) == Doubled(Term(a, b, 1), 1)
  {
  }

  lemma Term2(a: bv8, b: bv8)
    ensures Reduce(Partial(a, b, 2)) == Doubled(Term(a, b, 2), 2)
  {
    Powers(Term(a, b, 2));
    hide Doubled;
  }

  lemma Term3(a: bv8, b: bv8)
    ensures Reduce(Partial(a, b, 3)) == Doubled(Term(a, b, 3), 3)
  {
    Powers(Term(a, b, 3));
    hide Doubled;
  }

  lemma Term4(a: bv8, b: bv8)
    ensures Reduce(Partial(a, b, 4)) == Doubled(Term(a, b, 4), 4)
  {
    Powers(Term(a, b, 4));
    hide Doubled;
  }

  lemma Term5(a: bv8, b: bv8)
    ensures Reduce(Partial(a, b, 5)) == Doubled(Term(a, b, 5), 5)
  {
    Powers(Term(a, b, 5));
    hide Doubled;
  }

  lemma Term6(a: bv8, b: bv8)
    ensures Reduce(Partial(a, b, 6)) == Doubled(Term(a, b, 6), 6)
  {
    Powers(Term(a, b, 6));
    hide Doubled;
  }

  lemma Term7(a: bv8, b: bv8)
    ensures Reduce(Partial(a, b, 7)) == Doubled(Term(a, b, 7), 7)
  {
    Powers(Term(a, b, 7));
    hide Doubled;
  }

  lemma {:induction false} DoubledAdds(b: bv8, c: bv8, n: nat)
    ensures Doubled(Add(b, c), n) == Add(Doubled(b, n), Doubled(c, n))
    ensures Doubled(Xtime(b), n) == Xtime(Doubled(b, n))
  {
    hide Xtime, Add;
    if n > 0 {
      DoubledAdds(b, c, n - 1);
      XtimeDistributes(Doubled(b, n - 1), Doubled(c, n - 1));
    }
  }

  // One term more: its reduction is one step of the scheme, still to be doubled `n` times.
  lemma TermMore(p: bv16, h: bv8, q: bv16, t: bv8, n: nat)
    requires Reduce(p) == Doubled(h, n + 1) && Reduce(q) == Doubled(t, n)
    ensures Reduce(Add16(p, q)) == Doubled(Step(h, t), n)
  {
    hide Reduce, Add16, Add, Xtime, Step;
    StepIs(h, t);
    ReduceAdds(p, q);
    DoubledAdds(Xtime(h), t, n);
    DoubledAdds(h, t, n);
  }

  lemma TimesIsHorner(a: bv8, b: bv8)
    ensures Times(a, b) == Horner(a, b)
  {
    hide Partial, Reduce, Term, Add16, Step;
    Term7(a, b);
    Term6(a, b);
    Term5(a, b);
    Term4(a, b);
    Term3(a, b);
    Term2(a, b);
    Term1(a, b);
    Term0(a, b);
    TermMore(Partial(a, b, 7), Term(a, b, 7), Partial(a, b, 6), Term(a, b, 6), 6);
    var p6, h6 := Add16(Partial(a, b, 7), Partial(a, b, 6)), Step(Term(a, b, 7), Term(a, b, 6));
    TermMore(p6, h6, Partial(a, b, 5), Term(a, b, 5), 5);
    var p5, h5 := Add16(p6, Partial(a, b, 5)), Step(h6, Term(a, b, 5));
    TermMore(p5, h5, Partial(a, b, 4), Term(a, b, 4), 4);
    var p4, h4 := Add16(p5, Partial(a, b, 4)), Step(h5, Term(a, b, 4));
    TermMore(p4, h4, Partial(a, b, 3), Term(a, b, 3), 3);
    var p3, h3 := Add16(p4, Partial(a, b, 3)), Step(h4, Term(a, b, 3));
    TermMore(p3, h3, Partial(a, b, 2), Term(a, b, 2), 2);
    var p2, h2 := Add16(p3, Partial(a, b, 2)), Step(h3, Term(a, b, 2));
    TermMore(p2, h2, Partial(a, b, 1), Term(a, b, 1), 1);
    var p1, h1 := Add16(p2, Partial(a, b, 1)), Step(h2, Term(a, b, 1));
    TermMore(p1, h1, Partial(a, b, 0), Term(a, b, 0), 0);
    hide Doubled;
  }

  lemma StepAdds(h: bv8, k: bv8, t: bv8, u: bv8)
    ensures Step(Add(h, k), Add(t, u)) == Add(Step(h, t), Step(k, u))
    ensures Step(Xtime(h), Xtime(t)) == Xtime(Step(h, t))
  {
    hide Xtime, Add, Step;
    StepIs(h, t);
    StepIs(k, u);
    StepIs(Add(h, k), Add(t, u));
    StepIs(Xtime(h), Xtime(t));
    XtimeDistributes(h, k);
    XtimeDistributes(Xtime(h), t);
    Exchange(Xtime(h), Xtime(k), t, u);
  }

  lemma AddZero()
    ensures Add(0, 0) == 0 && Xtime(0) == 0
  {
  }

  lemma TermAdds(a: bv8, b: bv8, c: bv8, i: bv8)
    requires i < 8
    ensures Term(a, Add(b, c), i) == Add(Term(a, b, i), Term(a, c, i))
    ensures Term(a, Xtime(b), i) == Xtime(Term(a, b, i))
  {
    hide Add, Xtime;
    AddZero();
  }

  // Multiplication distributes, and doubling can be done before or after it.
  lemma TimesAdds(a: bv8, b: bv8, c: bv8)
    ensures Times(a, Add(b, c)) == Add(Times(a, b), Times(a, c))
    ensures Times(a, Xtime(b)) == Xtime(Times(a, b))
  {
    hide Times, Term, Step, Add, Xtime;
    TimesIsHorner(a, b);
    TimesIsHorner(a, c);
    TimesIsHorner(a, Add(b, c));
    TimesIsHorner(a, Xtime(b));
    TermAdds(a, b, c, 7);
    TermAdds(a, b, c, 6);
    TermAdds(a, b, c, 5);
    TermAdds(a, b, c, 4);
    TermAdds(a, b, c, 3);
    TermAdds(a, b, c, 2);
    TermAdds(a, b, c, 1);
    TermAdds(a, b, c, 0);
    StepAdds(Term(a, b, 7), Term(a, c, 7), Term(a, b, 6), Term(a, c, 6));
    var b6, c6 := Step(Term(a, b, 7), Term(a, b, 6)), Step(Term(a, c, 7), Term(a, c, 6));
    StepAdds(b6, c6, Term(a, b, 5), Term(a, c, 5));
    var b5, c5 := Step(b6, Term(a, b, 5)), Step(c6, Term(a, c, 5));
    StepAdds(b5, c5, Term(a, b, 4), Term(a, c, 4));
    var b4, c4 := Step(b5, Term(a, b, 4)), Step(c5, Term(a, c, 4));
    StepAdds(b4, c4, Term(a, b, 3), Term(a, c, 3));
    var b3, c3 := Step(b4, Term(a, b, 3)), Step(c4, Term(a, c, 3));
    StepAdds(b3, c3, Term(a, b, 2), Term(a, c, 2));
    var b2, c2 := Step(b3, Term(a, b, 2)), Step(c3, Term(a, c, 2));
    StepAdds(b2, c2, Term(a, b, 1), Term(a, c, 1));
    var b1, c1 := Step(b2, Term(a, b, 1)), Step(c2, Term(a, c, 1));
    StepAdds(b1, c1, Term(a, b, 0), Term(a, c, 0));
  }

  // ---- Inverses ----

  function RotateLeft(b: bv8, n: bv8): bv8
    requires n <= 8
  {
    (b << n) | (b >> (8 - n))
  }

  // The affine map of section 5.1.1: bit `i` is the sum of bits i, i+4, i+5, i+6, i+7 modulo 8 and
  // of bit `i` of 0x63.
  function Affine(b: bv8): bv8 {
    b ^ RotateLeft(b, 1) ^ RotateLeft(b, 2) ^ RotateLeft(b, 3) ^ RotateLeft(b, 4) ^ 0x63
  }

  // The inverse map, of section 5.3.2.
  function Unaffine(b: bv8): bv8 {
    RotateLeft(b, 1) ^ RotateLeft(b, 3) ^ RotateLeft(b, 6) ^ 0x05
  }

  lemma UnaffineUndone(b: bv8)
    ensures Affine(Unaffine(b)) == b
  {
  }

  lemma AffineUndone(b: bv8)
    ensures Unaffine(Affine(b)) == b
  {
  }

  // What the table holds, taken back through the affine map.
  function Candidate(b: bv8): bv8 { Unaffine(SubByte(b)) }

  lemma CandidateInvertsLow(b: bv8)
    requires b >> 7 == 0 && b != 0
    ensures Horner(b, Candidate(b)) == 1
  {
  }

  lemma CandidateInvertsFifth(b: bv8)
    requires b >> 5 == 4
    ensures Horner(b, Candidate(b)) == 1
  {
  }

  lemma CandidateInvertsSixth(b: bv8)
    requires b >> 5 == 5
    ensures Horner(b, Candidate(b)) == 1
  {
  }

  lemma CandidateInvertsSeventh(b: bv8)
    requires b >> 5 == 6
    ensures Horner(b, Candidate(b)) == 1
  {
  }

  lemma CandidateInvertsEighth(b: bv8)
    requires b >> 5 == 7
    ensures Horner(b, Candidate(b)) == 1
  {
  }

  lemma CandidateInverts(b: bv8)
    requires b != 0
    ensures Times(b, Candidate(b)) == 1
  {
    if b >> 7 == 0 {
      CandidateInvertsLow(b);
    } else if b >> 5 == 4 {
      CandidateInvertsFifth(b);
    } else if b >> 5 == 5 {
      CandidateInvertsSixth(b);
    } else if b >> 5 == 6 {
      CandidateInvertsSeventh(b);
    } else {
      CandidateInvertsEighth(b);
    }
    hide *;
    TimesIsHorner(b, Candidate(b));
  }

  // The other table, after the affine map, holds the same.
  lemma OtherTableLow(b: bv8)
    requires b >> 7 == 0
    ensures Candidate(b) == InvSubByte(Affine(b))
  {
  }

  lemma OtherTableHigh(b: bv8)
    requires b >> 7 == 1
    ensures Candidate(b) == InvSubByte(Affine(b))
  {
  }

  lemma CandidateUndone(b: bv8)
    ensures Candidate(Candidate(b)) == b
  {
    if b >> 7 == 0 {
      OtherTableLow(b);
    } else {
      OtherTableHigh(b);
    }
    SubByteUndoesInvSubByte(Affine(b));
    AffineUndone(b);
    hide SubByte, InvSubByte, Affine, Unaffine;
  }

  lemma CandidateOfZero()
    ensures Candidate(0) == 0
  {
  }

  lemma InvertedByCandidate(b: bv8)
    requires b != 0
    ensures Times(Candidate(b), b) == 1
  {
    hide *;
    CandidateUndone(b);
    CandidateOfZero();
    CandidateInverts(Candidate(b));
  }

  lemma TimesZero(a: bv8)
    ensures Times(a, 0) == 0
  {
    hide Times;
    TimesIsHorner(a, 0);
  }

  lemma TimesOne(a: bv8)
    ensures Times(a, 1) == a
  {
    hide *;
    TimesIsHorner(a, 1);
    HornerOne(a);
  }

  lemma HornerOne(a: bv8)
    ensures Horner(a, 1) == a
  {
  }

  lemma Halves(c: bv8)
    ensures c == Add(Xtime(c >> 1), c & 1)
    ensures c != 0 ==> c >> 1 < c
    ensures c & 1 == 0 || c & 1 == 1
  {
  }

  // Multiplication by the inverse undoes multiplication.
  lemma {:induction false} CandidateUndoes(b: bv8, c: bv8)
    requires b != 0
    ensures Times(Candidate(b), Times(b, c)) == c
    decreases c
  {
    hide Times, Candidate, Add, Xtime;
    var a := Candidate(b);
    TimesZero(a);
    TimesZero(b);
    TimesOne(a);
    TimesOne(b);
    if c != 0 {
      Halves(c);
      var half, low := c >> 1, c & 1;
      CandidateUndoes(b, half);
      InvertedByCandidate(b);
      TimesAdds(b, half, 0);
      TimesAdds(b, Xtime(half), low);
      TimesAdds(a, Times(b, half), 0);
      TimesAdds(a, Times(b, Xtime(half)), Times(b, low));
    }
  }

  predicate IsInverse(b: bv8, c: bv8) { if b == 0 then c == 0 else Times(b, c) == 1 }

  // Every element has an inverse, and only one; zero counts as its own.
  lemma InverseIsUnique(b: bv8, c: bv8, d: bv8)
    requires IsInverse(b, c) && IsInverse(b, d)
    ensures c == d
  {
    hide Times, Candidate;
    if b != 0 {
      CandidateUndoes(b, c);
      CandidateUndoes(b, d);
    }
  }

  lemma InverseExists(b: bv8)
    ensures exists c :: IsInverse(b, c)
  {
    hide Times, Candidate;
    if b != 0 {
      CandidateInverts(b);
      assert IsInverse(b, Candidate(b));
    } else {
      assert IsInverse(b, 0);
    }
  }

  ghost function Inverse(b: bv8): (c: bv8)
    ensures IsInverse(b, c)
  {
    InverseExists(b);
    var c :| IsInverse(b, c);
    c
  }

  // S-box: the inverse, then the affine map.
  ghost function S(b: bv8): bv8 { Affine(Inverse(b)) }

  // The table of `aes.c` is the substitution of the standard.
  lemma SubByteIsS(b: bv8)
    ensures SubByte(b) == S(b)
  {
    UnaffineUndone(SubByte(b));
    hide Times, SubByte, Affine, Unaffine;
    if b != 0 {
      CandidateInverts(b);
    } else {
      CandidateOfZero();
    }
    InverseIsUnique(b, Candidate(b), Inverse(b));
  }
}
