/**
 Arithmetic in GF(2^8) as section 4 of FIPS 197 defines it. This module knows nothing of the
 tables of `aes.c`; it is what they are measured against.
 */
module AesField {

  // ---- The definitions ----

  // Addition in GF(2^8) (section 4.1 of FIPS 197).
  function Add(a: bv8, b: bv8): bv8 { a ^ b }

  function Sum4(a: bv8, b: bv8, c: bv8, d: bv8): bv8 { Add(Add(a, b), Add(c, d)) }

  // The contribution of bit `i` of `a` to the product of the polynomials `a` and `b`.
  function Partial(a: bv8, b: bv8, i: bv8): bv16
    requires i < 8
  {
    if (a >> i) & 1 == 1 then (b as bv16) << i else 0
  }

  // Addition of polynomials.
  function Add16(p: bv16, q: bv16): bv16 { p ^ q }

  function PolynomialProduct(a: bv8, b: bv8): bv16 {
    Add16(Add16(Add16(Add16(Add16(Add16(Add16(Partial(a, b, 7), Partial(a, b, 6)), Partial(a, b, 5)),
                                        Partial(a, b, 4)), Partial(a, b, 3)), Partial(a, b, 2)),
                Partial(a, b, 1)), Partial(a, b, 0))
  }

  // Removes the term of degree `i` by adding a multiple of x^8 + x^4 + x^3 + x + 1.
  function Cancel(p: bv16, i: bv16): bv16
    requires 8 <= i <= 14
  {
    if (p >> i) & 1 == 1 then p ^ (0x11b << (i - 8)) else p
  }

  function Reduce(p: bv16): bv8 {
    (Cancel(Cancel(Cancel(Cancel(Cancel(Cancel(Cancel(p, 14), 13), 12), 11), 10), 9), 8) & 0xff) as bv8
  }

  // Multiplication in GF(2^8) (section 4.2 of FIPS 197).
  function Times(a: bv8, b: bv8): bv8 {
    Reduce(PolynomialProduct(a, b))
  }

  // Multiplication by x, the `xtime` of section 4.2.1 of FIPS 197.
  function Xtime(b: bv8): bv8 {
    if b & 0x80 == 0x80 then (b << 1) ^ 0x1b else b << 1
  }

  // ---- The coefficients that (Inv)MixColumns uses, as sums of doublings ----

  function By02(b: bv8): bv8 { Xtime(b) }

  function By03(b: bv8): bv8 { Add(Xtime(b), b) }

  function By09(b: bv8): bv8 { Add(Xtime(Xtime(Xtime(b))), b) }

  function By0B(b: bv8): bv8 { Add(Add(Xtime(Xtime(Xtime(b))), Xtime(b)), b) }

  function By0D(b: bv8): bv8 { Add(Add(Xtime(Xtime(Xtime(b))), Xtime(Xtime(b))), b) }

  function By0E(b: bv8): bv8 { Add(Add(Xtime(Xtime(Xtime(b))), Xtime(Xtime(b))), Xtime(b)) }

  lemma By02IsTimes(b: bv8)
    ensures By02(b) == Times(0x02, b)
  {
  }

  lemma By03IsTimes(b: bv8)
    ensures By03(b) == Times(0x03, b)
  {
  }

  lemma By09IsTimes(b: bv8)
    ensures By09(b) == Times(0x09, b)
  {
  }

  lemma By0BIsTimes(b: bv8)
    ensures By0B(b) == Times(0x0b, b)
  {
  }

  lemma By0DIsTimes(b: bv8)
    ensures By0D(b) == Times(0x0d, b)
  {
  }

  lemma By0EIsTimes(b: bv8)
    ensures By0E(b) == Times(0x0e, b)
  {
  }

  // ---- Every multiplication distributes over addition ----

  // The reduction of the overflowing bit, written without a case distinction.
  function XtimeByShifts(b: bv8): bv8 {
    (b << 1) ^ (b >> 7) ^ ((b >> 7) << 1) ^ ((b >> 7) << 3) ^ ((b >> 7) << 4)
  }

  lemma XtimeIsByShifts(b: bv8)
    ensures Xtime(b) == XtimeByShifts(b)
  {
  }

  lemma XtimeByShiftsDistributes(a: bv8, b: bv8)
    ensures XtimeByShifts(Add(a, b)) == Add(XtimeByShifts(a), XtimeByShifts(b))
  {
  }

  lemma XtimeDistributes(a: bv8, b: bv8)
    ensures Xtime(Add(a, b)) == Add(Xtime(a), Xtime(b))
  {
    XtimeIsByShifts(a);
    XtimeIsByShifts(b);
    XtimeIsByShifts(Add(a, b));
    XtimeByShiftsDistributes(a, b);
  }

  lemma Exchange(a: bv8, b: bv8, c: bv8, d: bv8)
    ensures Add(Add(a, b), Add(c, d)) == Add(Add(a, c), Add(b, d))
  {
    assert Add(a ^ b, c ^ d) == Add(a ^ c, b ^ d);
  }

  lemma AddUndoesItself(a: bv8, b: bv8)
    ensures Add(Add(a, b), b) == a
  {
    assert Add(a ^ b, b) == a;
  }

  lemma XtimeDistributes2(a: bv8, b: bv8)
    ensures Xtime(Xtime(Add(a, b))) == Add(Xtime(Xtime(a)), Xtime(Xtime(b)))
  {
    XtimeDistributes(a, b);
    XtimeDistributes(Xtime(a), Xtime(b));
  }

  lemma XtimeDistributes3(a: bv8, b: bv8)
    ensures Xtime(Xtime(Xtime(Add(a, b)))) == Add(Xtime(Xtime(Xtime(a))), Xtime(Xtime(Xtime(b))))
  {
    XtimeDistributes2(a, b);
    XtimeDistributes(Xtime(Xtime(a)), Xtime(Xtime(b)));
  }

  lemma By03Distributes(a: bv8, b: bv8)
    ensures By03(Add(a, b)) == Add(By03(a), By03(b))
  {
    XtimeDistributes(a, b);
    Exchange(Xtime(a), Xtime(b), a, b);
  }

  lemma By09Distributes(a: bv8, b: bv8)
    ensures By09(Add(a, b)) == Add(By09(a), By09(b))
  {
    var a3, b3 := Xtime(Xtime(Xtime(a))), Xtime(Xtime(Xtime(b)));
    XtimeDistributes3(a, b);
    Exchange(a3, b3, a, b);
  }

  lemma By0BDistributes(a: bv8, b: bv8)
    ensures By0B(Add(a, b)) == Add(By0B(a), By0B(b))
  {
    var a3, b3 := Xtime(Xtime(Xtime(a))), Xtime(Xtime(Xtime(b)));
    XtimeDistributes3(a, b);
    XtimeDistributes(a, b);
    Exchange(a3, b3, Xtime(a), Xtime(b));
    Exchange(Add(a3, Xtime(a)), Add(b3, Xtime(b)), a, b);
  }

  lemma By0DDistributes(a: bv8, b: bv8)
    ensures By0D(Add(a, b)) == Add(By0D(a), By0D(b))
  {
    var a3, b3 := Xtime(Xtime(Xtime(a))), Xtime(Xtime(Xtime(b)));
    XtimeDistributes3(a, b);
    XtimeDistributes2(a, b);
    Exchange(a3, b3, Xtime(Xtime(a)), Xtime(Xtime(b)));
    Exchange(Add(a3, Xtime(Xtime(a))), Add(b3, Xtime(Xtime(b))), a, b);
  }

  lemma By0EDistributes(a: bv8, b: bv8)
    ensures By0E(Add(a, b)) == Add(By0E(a), By0E(b))
  {
    var a3, b3 := Xtime(Xtime(Xtime(a))), Xtime(Xtime(Xtime(b)));
    XtimeDistributes3(a, b);
    XtimeDistributes2(a, b);
    XtimeDistributes(a, b);
    Exchange(a3, b3, Xtime(Xtime(a)), Xtime(Xtime(b)));
    Exchange(Add(a3, Xtime(Xtime(a))), Add(b3, Xtime(Xtime(b))), Xtime(a), Xtime(b));
  }

  // ---- The matrices of (Inv)MixColumns, row by row ----

  function MixRow(a: bv8, b: bv8, c: bv8, d: bv8): bv8 {
    Sum4(By02(a), By03(b), c, d)
  }

  function InvMixRow(a: bv8, b: bv8, c: bv8, d: bv8): bv8 {
    Sum4(By0E(a), By0B(b), By0D(c), By09(d))
  }

  // The products of a row of the one matrix with the columns of the other: 1, 0, 0 and 0.

  lemma InvMixDiagonal(a: bv8)
    ensures InvMixRow(By02(a), a, a, By03(a)) == a
  {
  }

  lemma InvMixNext(b: bv8)
    ensures InvMixRow(By03(b), By02(b), b, b) == 0
  {
  }

  lemma InvMixOpposite(c: bv8)
    ensures InvMixRow(c, By03(c), By02(c), c) == 0
  {
  }

  lemma InvMixPrevious(d: bv8)
    ensures InvMixRow(d, d, By03(d), By02(d)) == 0
  {
  }

  lemma MixDiagonal(a: bv8)
    ensures MixRow(By0E(a), By09(a), By0D(a), By0B(a)) == a
  {
  }

  lemma AddAssociates(a: bv8, b: bv8, c: bv8)
    ensures Add(Add(a, b), c) == Add(a, Add(b, c))
  {
    assert Add(a ^ b, c) == Add(a, b ^ c);
  }

  // A row takes one doubling only.
  lemma MixRowIsSplit(a: bv8, b: bv8, c: bv8, d: bv8)
    ensures MixRow(a, b, c, d) == Add(Xtime(Add(a, b)), Add(b, Add(c, d)))
  {
    hide Xtime, Add;
    XtimeDistributes(a, b);
    AddAssociates(Xtime(a), By03(b), Add(c, d));
    AddAssociates(Xtime(b), b, Add(c, d));
    AddAssociates(Xtime(a), Xtime(b), Add(b, Add(c, d)));
  }

  lemma SameCancels(a: bv8)
    ensures Add(a, a) == 0
  {
  }

  // Sums like those of By09, By0B, By0D and By0E, of which one or two terms are left.

  lemma NextCancels(a: bv8, b: bv8, c: bv8, d: bv8)
    ensures Add(Add(Add(a, c), d), Add(Add(a, b), c)) == Add(d, b)
    ensures Add(Add(Add(a, b), c), Add(Add(a, d), Add(Add(a, b), d))) == Add(c, a)
  {
  }

  lemma OppositeCancels(a: bv8, b: bv8, c: bv8, d: bv8)
    ensures Add(Add(Add(a, b), d), Add(Add(a, c), d)) == Add(b, c)
    ensures Add(Add(Add(a, c), d), Add(Add(Add(a, b), c), Add(a, d))) == Add(a, b)
  {
    hide Add;
    TailCancels(Add(a, b), Add(a, c), d);
    HeadCancels(a, b, c);
    AddAssociates(a, b, c);
    HeadCancels(a, Add(b, c), d);
    TailCancels(Add(a, c), Add(b, c), d);
    TailCancels(a, b, c);
  }

  lemma TailCancels(a: bv8, b: bv8, c: bv8)
    ensures Add(Add(a, c), Add(b, c)) == Add(a, b)
  {
  }

  lemma HeadCancels(a: bv8, b: bv8, c: bv8)
    ensures Add(Add(a, b), Add(a, c)) == Add(b, c)
  {
  }

  lemma PreviousCancels(a: bv8, b: bv8, c: bv8, d: bv8)
    ensures Add(Add(a, d), Add(Add(a, b), d)) == b
    ensures Add(Add(Add(a, b), d), Add(Add(Add(a, c), d), Add(Add(a, b), c))) == a
  {
  }

  lemma MixNext(b: bv8)
    ensures MixRow(By0B(b), By0E(b), By09(b), By0D(b)) == 0
  {
    hide Xtime, Add;
    var b2, b4, b8 := Xtime(b), Xtime(Xtime(b)), Xtime(Xtime(Xtime(b)));
    MixRowIsSplit(By0B(b), By0E(b), By09(b), By0D(b));
    NextCancels(b8, b4, b2, b);
    XtimeDistributes(b, b4);
    SameCancels(Add(b2, b8));
  }

  lemma MixOpposite(c: bv8)
    ensures MixRow(By0D(c), By0B(c), By0E(c), By09(c)) == 0
  {
    hide Xtime, Add;
    var c2, c4, c8 := Xtime(c), Xtime(Xtime(c)), Xtime(Xtime(Xtime(c)));
    MixRowIsSplit(By0D(c), By0B(c), By0E(c), By09(c));
    OppositeCancels(c8, c4, c2, c);
    XtimeDistributes(c4, c2);
    SameCancels(Add(c8, c4));
  }

  lemma MixPrevious(d: bv8)
    ensures MixRow(By09(d), By0D(d), By0B(d), By0E(d)) == 0
  {
    hide Xtime, Add;
    var d2, d4, d8 := Xtime(d), Xtime(Xtime(d)), Xtime(Xtime(Xtime(d)));
    MixRowIsSplit(By09(d), By0D(d), By0B(d), By0E(d));
    PreviousCancels(d8, d4, d2, d);
    SameCancels(d8);
  }

  lemma Rotate(a: bv8, b: bv8, c: bv8, d: bv8)
    ensures Sum4(a, b, c, d) == Sum4(d, a, b, c)
  {
    assert Add(a ^ b, c ^ d) == Add(d ^ a, b ^ c);
  }

  lemma OnlyFirst(a: bv8)
    ensures Sum4(a, 0, 0, 0) == a
  {
  }

  lemma InvMixRowDistributes(a0: bv8, a1: bv8, a2: bv8, a3: bv8, b0: bv8, b1: bv8, b2: bv8, b3: bv8)
    ensures InvMixRow(Add(a0, b0), Add(a1, b1), Add(a2, b2), Add(a3, b3)) ==
            Add(InvMixRow(a0, a1, a2, a3), InvMixRow(b0, b1, b2, b3))
  {
    By0EDistributes(a0, b0);
    By0BDistributes(a1, b1);
    By0DDistributes(a2, b2);
    By09Distributes(a3, b3);
    Exchange(By0E(a0), By0E(b0), By0B(a1), By0B(b1));
    Exchange(By0D(a2), By0D(b2), By09(a3), By09(b3));
    Exchange(Add(By0E(a0), By0B(a1)), Add(By0E(b0), By0B(b1)), Add(By0D(a2), By09(a3)), Add(By0D(b2), By09(b3)));
  }

  lemma MixRowDistributes(a0: bv8, a1: bv8, a2: bv8, a3: bv8, b0: bv8, b1: bv8, b2: bv8, b3: bv8)
    ensures MixRow(Add(a0, b0), Add(a1, b1), Add(a2, b2), Add(a3, b3)) ==
            Add(MixRow(a0, a1, a2, a3), MixRow(b0, b1, b2, b3))
  {
    XtimeDistributes(a0, b0);
    By03Distributes(a1, b1);
    Exchange(By02(a0), By02(b0), By03(a1), By03(b1));
    Exchange(a2, b2, a3, b3);
    Exchange(Add(By02(a0), By03(a1)), Add(By02(b0), By03(b1)), Add(a2, a3), Add(b2, b3));
  }

  // The sum over the four columns of one matrix, taken one column at a time.
  lemma InvMixRowOfSums(a0: bv8, a1: bv8, a2: bv8, a3: bv8, b0: bv8, b1: bv8, b2: bv8, b3: bv8,
                        c0: bv8, c1: bv8, c2: bv8, c3: bv8, d0: bv8, d1: bv8, d2: bv8, d3: bv8)
    ensures InvMixRow(Sum4(a0, b0, c0, d0), Sum4(a1, b1, c1, d1), Sum4(a2, b2, c2, d2), Sum4(a3, b3, c3, d3)) ==
            Sum4(InvMixRow(a0, a1, a2, a3), InvMixRow(b0, b1, b2, b3),
                 InvMixRow(c0, c1, c2, c3), InvMixRow(d0, d1, d2, d3))
  {
    InvMixRowDistributes(a0, a1, a2, a3, b0, b1, b2, b3);
    InvMixRowDistributes(c0, c1, c2, c3, d0, d1, d2, d3);
    InvMixRowDistributes(Add(a0, b0), Add(a1, b1), Add(a2, b2), Add(a3, b3),
                         Add(c0, d0), Add(c1, d1), Add(c2, d2), Add(c3, d3));
  }

  lemma MixRowOfSums(a0: bv8, a1: bv8, a2: bv8, a3: bv8, b0: bv8, b1: bv8, b2: bv8, b3: bv8,
                     c0: bv8, c1: bv8, c2: bv8, c3: bv8, d0: bv8, d1: bv8, d2: bv8, d3: bv8)
    ensures MixRow(Sum4(a0, b0, c0, d0), Sum4(a1, b1, c1, d1), Sum4(a2, b2, c2, d2), Sum4(a3, b3, c3, d3)) ==
            Sum4(MixRow(a0, a1, a2, a3), MixRow(b0, b1, b2, b3),
                 MixRow(c0, c1, c2, c3), MixRow(d0, d1, d2, d3))
  {
    MixRowDistributes(a0, a1, a2, a3, b0, b1, b2, b3);
    MixRowDistributes(c0, c1, c2, c3, d0, d1, d2, d3);
    MixRowDistributes(Add(a0, b0), Add(a1, b1), Add(a2, b2), Add(a3, b3),
                      Add(c0, d0), Add(c1, d1), Add(c2, d2), Add(c3, d3));
  }

  // The first entry of InvMixColumns after MixColumns is the first entry of the column.
  lemma InvMixRowUndoesMix(a: bv8, b: bv8, c: bv8, d: bv8)
    ensures InvMixRow(MixRow(a, b, c, d), MixRow(b, c, d, a), MixRow(c, d, a, b), MixRow(d, a, b, c)) == a
  {
    Rotate(By02(b), By03(c), d, a);
    Rotate(By02(c), By03(d), a, b);
    Rotate(b, By02(c), By03(d), a);
    Rotate(d, a, b, By02(c));
    Rotate(a, b, By02(c), By03(d));
    Rotate(By03(a), b, c, By02(d));
    InvMixRowOfSums(By02(a), a, a, By03(a), By03(b), By02(b), b, b,
                    c, By03(c), By02(c), c, d, d, By03(d), By02(d));
    InvMixDiagonal(a);
    InvMixNext(b);
    InvMixOpposite(c);
    InvMixPrevious(d);
    OnlyFirst(a);
  }

  // And the other way round.
  lemma MixRowUndoesInvMix(a: bv8, b: bv8, c: bv8, d: bv8)
    ensures MixRow(InvMixRow(a, b, c, d), InvMixRow(b, c, d, a), InvMixRow(c, d, a, b), InvMixRow(d, a, b, c)) == a
  {
    Rotate(By0E(b), By0B(c), By0D(d), By09(a));
    Rotate(By0E(c), By0B(d), By0D(a), By09(b));
    Rotate(By09(b), By0E(c), By0B(d), By0D(a));
    Rotate(By0B(a), By0D(b), By09(c), By0E(d));
    MixRowOfSums(By0E(a), By09(a), By0D(a), By0B(a), By0B(b), By0E(b), By09(b), By0D(b),
                 By0D(c), By0B(c), By0E(c), By09(c), By09(d), By0D(d), By0B(d), By0E(d));
    MixDiagonal(a);
    MixNext(b);
    MixOpposite(c);
    MixPrevious(d);
    OnlyFirst(a);
  }
}
