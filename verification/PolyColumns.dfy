/** The MADDU column multiply of the Poly1305 block: each column is summed in
    HI:LO, which never overflows, and leaves the same product as the rows. */
module PolyColumns {
  import opened Words
  import opened Mips
  import opened PolyBlocks
  import opened PolyRows

  /** The double word in HI:LO. */
  ghost function HiLo(m: Machine): nat {
    m.lo + WORD * m.hi
  }

  ghost predicate OnlyHiLo(m: Machine, m': Machine) {
    m' == m.(hi := m'.hi, lo := m'.lo)
  }

  /** The products of column c contributed by the accumulator limbs below n. */
  ghost function ColumnSum(m: Machine, c: nat, n: nat): nat
    requires c < 8 && n <= 5
  {
    if n == 0 then 0
    else ColumnSum(m, c, n - 1) + if 0 <= c - (n - 1) < 4 then Term(m, c - (n - 1), n - 1) else 0
  }

  lemma SmallTerm(m: Machine, j: nat, i: nat)
    requires j < 4 && i < 5 && Clamped(m)
    ensures Term(m, j, i) <= 0xfff_ffff * 0xffff_ffff
  {
    MulMonotone(Val(m, 16 + j), 0xfff_ffff, Val(m, 3 + i));
    MulMonotone(Val(m, 3 + i), 0xffff_ffff, 0xfff_ffff);
  }

  lemma TermsAtMostFour(m: Machine, c: nat)
    requires c < 8 && Clamped(m)
    ensures ColumnSum(m, c, 5) <= 4 * (0xfff_ffff * 0xffff_ffff)
  {
    hide Term;
    forall j, i | 0 <= j < 4 && 0 <= i < 5
      ensures Term(m, j, i) <= 0xfff_ffff * 0xffff_ffff
    {
      SmallTerm(m, j, i);
    }
    assert ColumnSum(m, c, 2) == ColumnSum(m, c, 1) + if 0 <= c - 1 < 4 then Term(m, c - 1, 1) else 0;
    assert ColumnSum(m, c, 4) == ColumnSum(m, c, 3) + if 0 <= c - 3 < 4 then Term(m, c - 3, 3) else 0;
  }

  /** With the carry in, no column reaches 2^62, so HI:LO cannot overflow. */
  lemma ColumnBelow62Bits(m: Machine, c: nat)
    requires c < 8 && Clamped(m)
    ensures Val(m, 24) + ColumnSum(m, c, 5) < 0x4000_0000_0000_0000
  {
    TermsAtMostFour(m, c);
  }

  lemma {:induction false} ColumnSumMonotone(m: Machine, c: nat, n: nat)
    requires c < 8 && n <= 5
    ensures ColumnSum(m, c, n) <= ColumnSum(m, c, 5)
    decreases 5 - n
  {
    hide Term;
    if n < 5 { ColumnSumMonotone(m, c, n + 1); }
  }

  lemma MadduExact(j: nat, i: nat, m: Machine)
    requires j < 4 && i < 5 && HiLo(m) + Term(m, j, i) < WORD * WORD
    ensures var m' := Run([Maddu(3 + i, 16 + j)], m);
      OnlyHiLo(m, m') && HiLo(m') == HiLo(m) + Term(m, j, i)
  {
    RunOne(Maddu(3 + i, 16 + j), m);
    var p := HiLo(m) + Term(m, j, i);
    assert Product(Val(m, 3 + i), Val(m, 16 + j)) == Term(m, j, i);
    assert p / WORD < WORD && p == p / WORD * WORD + p % WORD;
  }

  lemma {:induction false} ColumnTermsExact(c: nat, n: nat, m: Machine)
    requires c < 8 && n <= 5 && HiLo(m) + ColumnSum(m, c, n) < WORD * WORD
    ensures var m' := Run(ColumnTerms(c, n), m);
      OnlyHiLo(m, m') && HiLo(m') == HiLo(m) + ColumnSum(m, c, n)
  {
    hide Term, Step;
    if n > 0 {
      var last := if 0 <= c - (n - 1) < 4 then [Maddu(2 + n, 17 + c - n)] else [];
      ColumnTermsExact(c, n - 1, m);
      RunAppend(ColumnTerms(c, n - 1), last, m);
      var m1 := Run(ColumnTerms(c, n - 1), m);
      if 0 <= c - (n - 1) < 4 {
        SameTerm(m, m1, c - (n - 1), n - 1);
        MadduExact(c - (n - 1), n - 1, m1);
      }
    }
  }

  lemma SameTerm(m: Machine, m': Machine, j: nat, i: nat)
    requires j < 4 && i < 5 && m'.r == m.r
    ensures Term(m', j, i) == Term(m, j, i)
  {
  }

  lemma {:induction false} SameColumn(m: Machine, m': Machine, c: nat, n: nat)
    requires c < 8 && n <= 5
    requires forall k: Reg :: 3 <= k < 8 || 16 <= k < 20 ==> m'.r[k] == m.r[k]
    ensures ColumnSum(m', c, n) == ColumnSum(m, c, n)
  {
    if n > 0 { SameColumn(m, m', c, n - 1); }
  }

  lemma ColumnStart(m: Machine)
    ensures Run([Mtlo(24), Mthi(0)], m) == m.(lo := m.r[24], hi := 0)
  {
    RunTwo(Mtlo(24), Mthi(0), m);
  }

  lemma ColumnEnd(c: nat, m: Machine)
    requires c < 8
    ensures Run([Mflo(8 + c), Mfhi(24)], m) == SetReg(SetReg(m, 8 + c, m.lo), 24, m.hi)
  {
    RunTwo(Mflo(8 + c), Mfhi(24), m);
  }

  lemma ColumnStore(c: nat, m: Machine, m1: Machine)
    requires c < 8 && OnlyHiLo(m.(lo := m.r[24], hi := 0), m1)
    ensures Mac(m, SetReg(SetReg(m1, 8 + c, m1.lo), 24, m1.hi), 8 + c, HiLo(m1))
  {
  }

  lemma ColumnExact(c: nat, m: Machine)
    requires c < 8 && Clamped(m)
    ensures Mac(m, Run(Column(c), m), 8 + c, Val(m, 24) + ColumnSum(m, c, 5))
  {
    hide Run, Step, ColumnTerms, ColumnSum, Mac, Clamped;
    RunAppend([Mtlo(24), Mthi(0)] + ColumnTerms(c, 5), [Mflo(8 + c), Mfhi(24)], m);
    RunAppend([Mtlo(24), Mthi(0)], ColumnTerms(c, 5), m);
    ColumnStart(m);
    var m0 := m.(lo := m.r[24], hi := 0);
    SameColumn(m, m0, c, 5);
    ColumnBelow62Bits(m, c);
    ColumnTermsExact(c, 5, m0);
    var m1 := Run(ColumnTerms(c, 5), m0);
    ColumnEnd(c, m1);
    ColumnStore(c, m, m1);
  }

  // ----- all eight columns -----

  ghost function WordPow(n: nat): nat {
    if n == 0 then 1 else WORD * WordPow(n - 1)
  }

  ghost function Low(m: Machine, n: nat): nat
    requires n <= 8
  {
    if n == 0 then 0 else Low(m, n - 1) + WordPow(n - 1) * Val(m, 7 + n)
  }

  ghost function ColumnTotal(m: Machine, n: nat): nat
    requires n <= 8
  {
    if n == 0 then 0 else ColumnTotal(m, n - 1) + WordPow(n - 1) * ColumnSum(m, n - 1, 5)
  }

  lemma {:induction false} SameLimbs(m: Machine, m': Machine, n: nat)
    requires n <= 8 && (forall k: Reg :: 8 <= k < 8 + n ==> m'.r[k] == m.r[k])
    ensures Low(m', n) == Low(m, n)
  {
    if n > 0 { SameLimbs(m, m', n - 1); }
  }

  lemma CarryUp(p: nat, x: nat, k: nat, k': nat, t: nat)
    requires x + WORD * k' == k + t
    ensures p * x + WORD * p * k' == p * k + p * t
  {
    assert p * (x + WORD * k') == p * x + p * (WORD * k');
    assert p * (WORD * k') == WORD * p * k';
    assert p * (k + t) == p * k + p * t;
  }

  ghost predicate ColumnsDone(n: nat, m: Machine, m': Machine)
    requires n <= 8
  {
    && OnlyRegisters(m, m', 8, 8 + n)
    && Low(m', n) + WordPow(n) * Val(m', 24) == ColumnTotal(m, n)
  }

  lemma ColumnsStep(n: nat, m: Machine, m1: Machine, m2: Machine)
    requires n < 8 && ColumnsDone(n, m, m1) && Mac(m1, m2, 8 + n, Val(m1, 24) + ColumnSum(m1, n, 5))
    ensures ColumnsDone(n + 1, m, m2)
  {
    hide ColumnSum;
    SameColumn(m, m1, n, 5);
    SameLimbs(m1, m2, n);
    CarryUp(WordPow(n), Val(m2, 8 + n), Val(m1, 24), Val(m2, 24), ColumnSum(m, n, 5));
  }

  lemma ColumnsStart(m: Machine)
    ensures ColumnsDone(0, m, SetReg(m, 24, 0))
  {
  }

  lemma ColumnsKeep(n: nat, m: Machine, m': Machine)
    requires n <= 8 && ColumnsDone(n, m, m')
    ensures Clamped(m) ==> Clamped(m')
  {
    hide Low, ColumnTotal, WordPow;
  }

  lemma {:induction false} ColumnsExact(n: nat, m: Machine)
    requires n <= 8 && Clamped(m)
    ensures ColumnsDone(n, m, Run(Columns(n), m))
  {
    hide Run, Step, Column, ColumnsDone, Clamped, Mac, ColumnSum;
    if n == 0 {
      StepMove(0, 24, m);
      ColumnsStart(m);
    } else {
      ColumnsExact(n - 1, m);
      RunAppend(Columns(n - 1), Column(n - 1), m);
      var m1 := Run(Columns(n - 1), m);
      ColumnsKeep(n - 1, m, m1);
      ColumnExact(n - 1, m1);
      ColumnsStep(n - 1, m, m1, Run(Column(n - 1), m1));
    }
  }

  lemma ColumnUnfold(m: Machine, c: nat)
    requires c < 8
    ensures ColumnSum(m, c, 5) == At(m, c, 0) + At(m, c, 1) + At(m, c, 2) + At(m, c, 3) + At(m, c, 4)
  {
    hide Term;
    assert ColumnSum(m, c, 1) == At(m, c, 0);
    assert ColumnSum(m, c, 3) == ColumnSum(m, c, 2) + At(m, c, 2);
  }

  /** The product of limb i that falls in column c, or zero. */
  ghost function At(m: Machine, c: nat, i: nat): nat
    requires c < 8 && i < 5
  {
    if 0 <= c - i < 4 then Term(m, c - i, i) else 0
  }

  ghost function RowSumOf(m: Machine, j: nat): nat
    requires j < 4
  {
    Term(m, j, 0) + W1 * Term(m, j, 1) + W2 * Term(m, j, 2) + W3 * Term(m, j, 3) + W4 * Term(m, j, 4)
  }

  lemma WordPowTable()
    ensures WordPow(0) == 1 && WordPow(1) == W1 && WordPow(2) == W2 && WordPow(3) == W3 && WordPow(4) == W4
    ensures WordPow(5) == W4 * W1 && WordPow(6) == W4 * W2 && WordPow(7) == W4 * W3 && WordPow(8) == W4 * W4
  {
    assert WordPow(2) == W2;
    assert WordPow(4) == W4;
    assert WordPow(6) == W4 * W2;
  }

  lemma TotalLow(m: Machine)
    ensures ColumnTotal(m, 4) == At(m, 0, 0) + W1 * (At(m, 1, 0) + At(m, 1, 1)) + W2 * (At(m, 2, 0) + At(m, 2, 1) + At(m, 2, 2))
                                 + W3 * (At(m, 3, 0) + At(m, 3, 1) + At(m, 3, 2) + At(m, 3, 3))
  {
    hide Term, ColumnSum, WordPow;
    WordPowTable();
    ColumnUnfold(m, 0);
    ColumnUnfold(m, 1);
    ColumnUnfold(m, 2);
    ColumnUnfold(m, 3);
    assert ColumnTotal(m, 1) == ColumnSum(m, 0, 5);
    assert ColumnTotal(m, 2) == ColumnSum(m, 0, 5) + W1 * ColumnSum(m, 1, 5);
  }

  lemma TotalHigh(m: Machine)
    ensures ColumnTotal(m, 8) == ColumnTotal(m, 4)
                                 + W4 * (At(m, 4, 1) + At(m, 4, 2) + At(m, 4, 3) + At(m, 4, 4)
                                         + W1 * (At(m, 5, 2) + At(m, 5, 3) + At(m, 5, 4)) + W2 * (At(m, 6, 3) + At(m, 6, 4)) + W3 * At(m, 7, 4))
  {
    hide Term, ColumnSum, WordPow;
    WordPowTable();
    ColumnUnfold(m, 4);
    ColumnUnfold(m, 5);
    ColumnUnfold(m, 6);
    ColumnUnfold(m, 7);
    assert ColumnTotal(m, 6) == ColumnTotal(m, 4) + WordPow(4) * ColumnSum(m, 4, 5) + WordPow(5) * ColumnSum(m, 5, 5);
  }

  /** Summing by columns and by rows gives the same total: the product. */
  lemma TotalIsProduct(m: Machine)
    ensures ColumnTotal(m, 8) == Product(Acc(m), Key(m))
  {
    hide Product, ColumnTotal;
    TotalLow(m);
    TotalHigh(m);
    assert ColumnTotal(m, 8) == RowSumOf(m, 0) + W1 * RowSumOf(m, 1) + W2 * RowSumOf(m, 2) + W3 * RowSumOf(m, 3);
    RowArith(Val(m, 16), Val(m, 3), Val(m, 4), Val(m, 5), Val(m, 6), Val(m, 7));
    RowArith(Val(m, 17), Val(m, 3), Val(m, 4), Val(m, 5), Val(m, 6), Val(m, 7));
    RowArith(Val(m, 18), Val(m, 3), Val(m, 4), Val(m, 5), Val(m, 6), Val(m, 7));
    RowArith(Val(m, 19), Val(m, 3), Val(m, 4), Val(m, 5), Val(m, 6), Val(m, 7));
    KeyArith(Acc(m), Val(m, 16), Val(m, 17), Val(m, 18), Val(m, 19));
  }

  lemma LowUnfold(m: Machine)
    ensures Low(m, 8) == Limbs4(m, 8) + W4 * Limbs4(m, 12)
  {
    hide WordPow;
    WordPowTable();
    assert Low(m, 1) == Val(m, 8);
    assert Low(m, 2) == Val(m, 8) + W1 * Val(m, 9);
    assert Low(m, 4) == Limbs4(m, 8);
    assert Low(m, 6) == Low(m, 4) + WordPow(4) * Val(m, 12) + WordPow(5) * Val(m, 13);
  }

  /** The product fits in eight words: clamped key, high limb at most seven. */
  lemma ProductFits(m: Machine)
    requires Clamped(m) && Val(m, 7) <= 7
    ensures Product(Acc(m), Key(m)) < 8 * W4 * 0x1000_0000_0000_0000_0000_0000_0000_0000
  {
    var h, r := Acc(m), Key(m);
    MulMonotone(h, 8 * W4, r);
    MulMonotone(r, 0x1000_0000_0000_0000_0000_0000_0000_0000 - 1, 8 * W4);
    assert 8 * W4 * r == r * (8 * W4);
  }

  /** The MADDU columns leave the exact product, and the last HI is zero. */
  lemma MaccExact(m: Machine)
    requires Clamped(m) && Val(m, 7) <= 7
    ensures Multiplies(m, Run(Columns(8), m)) && Val(Run(Columns(8), m), 24) == 0
  {
    hide Run, Columns, Product, Low, Clamped, ColumnTotal, Limbs4;
    ColumnsExact(8, m);
    var m' := Run(Columns(8), m);
    TotalIsProduct(m);
    LowUnfold(m');
    ProductFits(m);
    WordPowTable();
  }
}
