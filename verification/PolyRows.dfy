/** The row schoolbook multiply of the Poly1305 block: four rows of word
    products with SGTU carries leave the exact product in R8..R15. */
module PolyRows {
  import opened Words
  import opened Mips
  import opened PolyBlocks

  // ----- schoolbook rows -----

  /** The double word in R21:R20. */
  ghost function Pair(m: Machine): nat {
    Val(m, 20) + WORD * Val(m, 21)
  }

  lemma ProductBound(a: Word, b: Word)
    ensures Product(a, b) <= (WORD - 1) * (WORD - 1)
  {
    MulMonotone(a, WORD - 1, b);
    assert (WORD - 1) * b <= (WORD - 1) * (WORD - 1);
  }

  lemma MultuExact(a: Reg, b: Reg, m: Machine)
    requires a !in {20, 21} && b !in {20, 21}
    ensures var m' := Run([Multu(a, b), Mflo(20), Mfhi(21)], m);
      OnlyRegisters(m, m', 20, 22) && Val(m', 24) == Val(m, 24) && Pair(m') == Product(Val(m, a), Val(m, b))
  {
    hide Run, Product;
    var p := Product(Val(m, a), Val(m, b));
    RunThree(Multu(a, b), Mflo(20), Mfhi(21), m);
    ProductBound(m.r[a], m.r[b]);
    assert p / WORD < WORD && p == p / WORD * WORD + p % WORD;
    var m1 := SetProduct(m, p);
    assert m1 == Step(Multu(a, b), m);
    assert Step(Mflo(20), m1) == SetReg(m1, 20, p % WORD);
    assert Step(Mfhi(21), SetReg(m1, 20, p % WORD)) == SetReg(SetReg(m1, 20, p % WORD), 21, p / WORD);
  }

  /** Adding a word to R21:R20 with SGTU as the carry test. */
  lemma AddPairExact(k: Reg, m: Machine)
    requires k !in {20, 21, 25} && Pair(m) + Val(m, k) < WORD * WORD
    ensures var m' := Run([Addu(k, 20), Sgtu(k, 20, 25), Addu(25, 21)], m);
      OnlyRegisters(m, m', 20, 22) && Val(m', 24) == Val(m, 24) && Pair(m') == Pair(m) + Val(m, k)
  {
    hide Run;
    RunThree(Addu(k, 20), Sgtu(k, 20, 25), Addu(25, 21), m);
    var x := AddWord(m.r[20], m.r[k]);
    var c := Carry(m.r[k], x);
    assert (x as nat) + WORD * c == Val(m, 20) + Val(m, k);
    var m1 := SetReg(SetReg(m, 20, x), 25, c);
    assert m1 == Step(Sgtu(k, 20, 25), Step(Addu(k, 20), m));
    assert Val(m, 21) + c < WORD;
  }

  /** m' holds the double word t in register k and carry R24. */
  ghost predicate Mac(m: Machine, m': Machine, k: Reg, t: nat) {
    && OnlyRegisters(m, m', k, k + 1)
    && Val(m', k) + WORD * Val(m', 24) == t
  }

  function PairAdd(c: bool, k: Reg): seq<Instr> {
    if c then [Addu(k, 20), Sgtu(k, 20, 25), Addu(25, 21)] else []
  }

  ghost predicate AddsPair(m: Machine, m': Machine, b: nat) {
    OnlyRegisters(m, m', 20, 22) && Val(m', 24) == Val(m, 24) && Pair(m') == Pair(m) + b
  }

  lemma PairAddExact(c: bool, k: Reg, m: Machine)
    requires k !in {20, 21, 25} && Pair(m) + Val(m, k) < WORD * WORD
    ensures AddsPair(m, Run(PairAdd(c, k), m), if c then Val(m, k) else 0)
  {
    if c {
      hide Run, Step, Pair;
      AddPairExact(k, m);
    }
  }

  lemma AddsPairKeeps(m: Machine, m': Machine, b: nat, k: Reg)
    requires AddsPair(m, m', b) && k !in {20, 21, 25, 28}
    ensures Val(m', k) == Val(m, k) && Pair(m') == Pair(m) + b
  {
  }

  lemma StoreMac(m: Machine, m1: Machine, m2: Machine, m3: Machine, k: Reg, b: nat, c: nat)
    requires k !in {0, 20, 21, 24, 25}
    requires OnlyRegisters(m, m1, 20, 22) && AddsPair(m1, m2, b) && AddsPair(m2, m3, c)
    ensures Mac(m, SetReg(SetReg(m3, k, m3.r[20]), 24, m3.r[21]), k, Pair(m1) + b + c)
  {
  }

  lemma MoveTwo(a: Reg, d: Reg, b: Reg, e: Reg, m: Machine)
    requires b != d
    ensures Run([Move(a, d), Move(b, e)], m) == SetReg(SetReg(m, d, m.r[a]), e, m.r[b])
  {
    hide Run, Step;
    assert [Move(a, d), Move(b, e)] == [Move(a, d)] + [Move(b, e)];
    RunAppend([Move(a, d)], [Move(b, e)], m);
    StepMove(a, d, m);
    StepMove(b, e, SetReg(m, d, m.r[a]));
  }

  ghost function Term(m: Machine, j: nat, i: nat): nat
    requires j < 4 && i < 5
  {
    Product(Val(m, 16 + j), Val(m, 3 + i))
  }

  lemma TermBound(m: Machine, j: nat, i: nat)
    requires j < 4 && i < 5
    ensures Term(m, j, i) <= (WORD - 1) * (WORD - 1)
  {
    hide Product;
    ProductBound(m.r[16 + j], m.r[3 + i]);
  }

  ghost function RowTerm(m: Machine, j: nat, i: nat): nat
    requires j < 4 && i < 4
  {
    Term(m, j, i) + (if j != 0 then Val(m, 8 + i + j) else 0) + (if i != 0 then Val(m, 24) else 0)
  }

  lemma FrameOf(m: Machine, m1: Machine, k: Reg)
    requires OnlyRegisters(m, m1, 20, 22) && k !in {20, 21, 24, 25, 28}
    ensures Val(m1, k) == Val(m, k)
  {
  }

  lemma RegisterBound(m: Machine, k: Reg)
    ensures Val(m, k) < WORD
  {
  }

  /** One partial product: exact double-word multiply-accumulate. */
  lemma RowStepExact(j: nat, i: nat, m: Machine)
    requires j < 4 && i < 4
    ensures Mac(m, Run(RowStep(j, i), m), 8 + i + j, RowTerm(m, j, i))
  {
    hide *;
    var k := 8 + i + j;
    var p := [Multu(16 + j, 3 + i), Mflo(20), Mfhi(21)];
    var q, s := PairAdd(j != 0, k), PairAdd(i != 0, 24);
    RowStepUnfold(j, i, m);
    RunAppend4(p, q, s, [Move(20, k), Move(21, 24)], m);
    MultuExact(16 + j, 3 + i, m);
    TermBound(m, j, i);
    var m1 := Run(p, m);
    FrameOf(m, m1, k);
    RegisterBound(m, k);
    RegisterBound(m, 24);
    PairAddExact(j != 0, k, m1);
    var m2 := Run(q, m1);
    var b := if j != 0 then Val(m, k) else 0;
    AddsPairKeeps(m1, m2, b, 24);
    PairAddExact(i != 0, 24, m2);
    var m3 := Run(s, m2);
    MoveTwo(20, k, 21, 24, m3);
    StoreMac(m, m1, m2, m3, k, b, if i != 0 then Val(m, 24) else 0);
  }

  lemma RowStepUnfold(j: nat, i: nat, m: Machine)
    requires j < 4 && i < 4
    ensures RowStep(j, i) == [Multu(16 + j, 3 + i), Mflo(20), Mfhi(21)] + PairAdd(j != 0, 8 + i + j)
                             + PairAdd(i != 0, 24) + [Move(20, 8 + i + j), Move(21, 24)]
    ensures RowTerm(m, j, i) == Term(m, j, i) + (if j != 0 then Val(m, 8 + i + j) else 0) + (if i != 0 then Val(m, 24) else 0)
    ensures Term(m, j, i) == Product(Val(m, 16 + j), Val(m, 3 + i))
  {
  }

  lemma MacKeeps(m: Machine, m': Machine, k: Reg, t: nat, l: Reg)
    requires Mac(m, m', k, t) && l !in {k, 20, 21, 24, 25, 28}
    ensures Val(m', l) == Val(m, l)
  {
  }

  lemma RowTopExact(j: nat, m: Machine)
    requires j < 4 && Term(m, j, 4) + Val(m, 24) < WORD
    ensures var m' := Run(RowTop(j), m);
      OnlyRegisters(m, m', 12 + j, 13 + j) && Val(m', 12 + j) == Term(m, j, 4) + Val(m, 24)
  {
    hide Run, Product;
    var l, p := RowTop(j), Term(m, j, 4);
    assert l == [l[0], l[1]] + [l[2], l[3]];
    RunAppend([l[0], l[1]], [l[2], l[3]], m);
    RunTwo(l[0], l[1], m);
    var m1 := SetReg(SetProduct(m, p), 20, p);
    assert m1 == Run([l[0], l[1]], m);
    RunTwo(l[2], l[3], m1);
  }

  // m' is m after row j: five words at R(8+j).. hold the old four words plus r_j * h.
  ghost predicate RowDone(j: nat, m: Machine, m': Machine)
    requires j < 4
  {
    && OnlyRegisters(m, m', 8 + j, 13 + j)
    && Limbs4(m', 8 + j) + W4 * Val(m', 12 + j)
       == (if j == 0 then 0 else Limbs4(m, 8 + j)) + Product(Val(m, 16 + j), Acc(m))
  }

  lemma RowArith(r: nat, h0: nat, h1: nat, h2: nat, h3: nat, h4: nat)
    ensures Product(r, h0 + W1 * h1 + W2 * h2 + W3 * h3 + W4 * h4)
      == Product(r, h0) + W1 * Product(r, h1) + W2 * Product(r, h2) + W3 * Product(r, h3) + W4 * Product(r, h4)
  {
    assert r * (h0 + W1 * h1 + W2 * h2 + W3 * h3 + W4 * h4)
      == r * h0 + r * (W1 * h1) + r * (W2 * h2) + r * (W3 * h3) + r * (W4 * h4);
    assert r * (W1 * h1) == W1 * (r * h1);
    assert r * (W2 * h2) == W2 * (r * h2);
    assert r * (W3 * h3) == W3 * (r * h3);
    assert r * (W4 * h4) == W4 * (r * h4);
  }

  lemma RowSum(t: seq<nat>, a: seq<nat>, o: seq<nat>, c: seq<nat>)
    requires |t| == |o| == 5 && |a| == |c| == 4
    requires o[0] + WORD * c[0] == t[0] + a[0]
    requires o[1] + WORD * c[1] == t[1] + a[1] + c[0]
    requires o[2] + WORD * c[2] == t[2] + a[2] + c[1]
    requires o[3] + WORD * c[3] == t[3] + a[3] + c[2]
    requires o[4] == t[4] + c[3]
    ensures Sum5(o) == Sum4(a) + Sum5(t)
  {
  }

  ghost predicate RowChain(j: nat, m: Machine, m1: Machine, m2: Machine, m3: Machine, m4: Machine, m5: Machine)
    requires j < 4
  {
    && Mac(m, m1, 8 + j, RowTerm(m, j, 0))
    && Mac(m1, m2, 9 + j, RowTerm(m1, j, 1))
    && Mac(m2, m3, 10 + j, RowTerm(m2, j, 2))
    && Mac(m3, m4, 11 + j, RowTerm(m3, j, 3))
    && OnlyRegisters(m4, m5, 12 + j, 13 + j) && Val(m5, 12 + j) == Term(m4, j, 4) + Val(m4, 24)
  }

  lemma RowChainIntro(j: nat, m: Machine, m1: Machine, m2: Machine, m3: Machine, m4: Machine, m5: Machine)
    requires j < 4
    requires Mac(m, m1, 8 + j, RowTerm(m, j, 0)) && Mac(m1, m2, 9 + j, RowTerm(m1, j, 1))
    requires Mac(m2, m3, 10 + j, RowTerm(m2, j, 2)) && Mac(m3, m4, 11 + j, RowTerm(m3, j, 3))
    requires OnlyRegisters(m4, m5, 12 + j, 13 + j) && Val(m5, 12 + j) == Term(m4, j, 4) + Val(m4, 24)
    ensures RowChain(j, m, m1, m2, m3, m4, m5)
  {
  }

  ghost function RowAdded(j: nat, m: Machine): (a: seq<nat>)
    requires j < 4
    ensures |a| == 4
  {
    if j == 0 then [0, 0, 0, 0] else [Val(m, 8 + j), Val(m, 9 + j), Val(m, 10 + j), Val(m, 11 + j)]
  }

  lemma RowValues(j: nat, m: Machine, m1: Machine, m2: Machine, m3: Machine, m4: Machine, m5: Machine)
    requires j < 4 && RowChain(j, m, m1, m2, m3, m4, m5)
    ensures var a := RowAdded(j, m); var r := Val(m, 16 + j);
      && Val(m1, 8 + j) + WORD * Val(m1, 24) == Product(r, Val(m, 3)) + a[0]
      && Val(m2, 9 + j) + WORD * Val(m2, 24) == Product(r, Val(m, 4)) + a[1] + Val(m1, 24)
      && Val(m3, 10 + j) + WORD * Val(m3, 24) == Product(r, Val(m, 5)) + a[2] + Val(m2, 24)
      && Val(m4, 11 + j) + WORD * Val(m4, 24) == Product(r, Val(m, 6)) + a[3] + Val(m3, 24)
      && Val(m5, 12 + j) == Product(r, Val(m, 7)) + Val(m4, 24)
    ensures RowWords(j, m5) == [Val(m1, 8 + j), Val(m2, 9 + j), Val(m3, 10 + j), Val(m4, 11 + j), Val(m5, 12 + j)]
    ensures OnlyRegisters(m, m5, 8 + j, 13 + j)
  {
    hide Product;
  }

  ghost function RowWords(j: nat, m: Machine): (s: seq<nat>)
    requires j < 4
    ensures |s| == 5
  {
    [Val(m, 8 + j), Val(m, 9 + j), Val(m, 10 + j), Val(m, 11 + j), Val(m, 12 + j)]
  }

  ghost function Sum5(w: seq<nat>): nat
    requires |w| == 5
  {
    w[0] + W1 * w[1] + W2 * w[2] + W3 * w[3] + W4 * w[4]
  }

  ghost function Sum4(w: seq<nat>): nat
    requires |w| == 4
  {
    w[0] + W1 * w[1] + W2 * w[2] + W3 * w[3]
  }

  lemma Sum5Unfold(w: seq<nat>)
    requires |w| == 5
    ensures Sum5(w) == w[0] + W1 * w[1] + W2 * w[2] + W3 * w[3] + W4 * w[4]
  {
  }

  lemma Sum4Unfold(w: seq<nat>)
    requires |w| == 4
    ensures Sum4(w) == w[0] + W1 * w[1] + W2 * w[2] + W3 * w[3]
  {
  }

  lemma RowLink(j: nat, m: Machine, m1: Machine, m2: Machine, m3: Machine, m4: Machine, m5: Machine)
    requires j < 4 && RowChain(j, m, m1, m2, m3, m4, m5)
    ensures RowDone(j, m, m5)
  {
    hide *;
    var r := Val(m, 16 + j);
    RowValues(j, m, m1, m2, m3, m4, m5);
    var t := [Product(r, Val(m, 3)), Product(r, Val(m, 4)), Product(r, Val(m, 5)), Product(r, Val(m, 6)), Product(r, Val(m, 7))];
    RowSum(t, RowAdded(j, m), RowWords(j, m5), [Val(m1, 24), Val(m2, 24), Val(m3, 24), Val(m4, 24)]);
    RowArith(r, Val(m, 3), Val(m, 4), Val(m, 5), Val(m, 6), Val(m, 7));
    Sum5Unfold(t);
    RowClose(j, m, m5, t);
  }

  lemma RowClose(j: nat, m: Machine, m': Machine, t: seq<nat>)
    requires j < 4 && |t| == 5
    requires OnlyRegisters(m, m', 8 + j, 13 + j)
    requires Sum5(RowWords(j, m')) == Sum4(RowAdded(j, m)) + Sum5(t)
    requires Product(Val(m, 16 + j), Val(m, 3) + W1 * Val(m, 4) + W2 * Val(m, 5) + W3 * Val(m, 6) + W4 * Val(m, 7)) == Sum5(t)
    ensures RowDone(j, m, m')
  {
    hide Product;
  }

  /** The carry out of three words and a small multiplier stays small. */
  lemma CarryBound(r: nat, h: Word, a: Word, c: Word, o: nat, k: nat)
    requires o + WORD * k == Product(r, h) + a + c
    ensures k <= r + 1
  {
    MulMonotone(h, WORD - 1, r);
    assert r * h == h * r;
  }

  lemma TopBound(r: nat, h: nat, c: nat)
    requires r < 0x1000_0000 && h <= 7 && c <= r + 1
    ensures Product(r, h) + c < WORD
  {
    MulMonotone(h, 7, r);
    assert r * h == h * r;
  }

  ghost predicate Clamped(m: Machine) {
    Val(m, 16) < 0x1000_0000 && Val(m, 17) < 0x1000_0000 && Val(m, 18) < 0x1000_0000 && Val(m, 19) < 0x1000_0000
  }

  lemma RowTopFits(j: nat, m: Machine, m3: Machine, m4: Machine)
    requires j < 4 && Clamped(m) && Val(m, 7) <= 7
    requires Mac(m3, m4, 11 + j, RowTerm(m3, j, 3))
    requires Val(m3, 16 + j) == Val(m, 16 + j) && Val(m3, 7) == Val(m, 7)
    ensures Term(m4, j, 4) + Val(m4, 24) < WORD
  {
    hide Product;
    var r := Val(m, 16 + j);
    CarryBound(r, m3.r[6], if j != 0 then m3.r[11 + j] else 0, m3.r[24], Val(m4, 11 + j), Val(m4, 24));
    TopBound(r, Val(m, 7), Val(m4, 24));
  }

  function Row(j: nat): seq<Instr>
    requires j < 4
  {
    RowSteps(j, 4) + RowTop(j)
  }

  lemma RowUnfold(j: nat)
    requires j < 4
    ensures RowSteps(j, 4) == RowStep(j, 0) + RowStep(j, 1) + RowStep(j, 2) + RowStep(j, 3)
    ensures Row(j) == RowSteps(j, 4) + RowTop(j)
  {
    hide RowStep;
    assert RowSteps(j, 1) == RowStep(j, 0);
    assert RowSteps(j, 3) == RowSteps(j, 2) + RowStep(j, 2);
  }

  lemma RowExact(j: nat, m: Machine)
    requires j < 4 && Clamped(m) && Val(m, 7) <= 7
    ensures RowDone(j, m, Run(Row(j), m))
  {
    hide *;
    RowUnfold(j);
    RunAppend(RowSteps(j, 4), RowTop(j), m);
    RunAppend4(RowStep(j, 0), RowStep(j, 1), RowStep(j, 2), RowStep(j, 3), m);
    var m1 := Run(RowStep(j, 0), m);
    RowStepExact(j, 0, m);
    var m2 := Run(RowStep(j, 1), m1);
    RowStepExact(j, 1, m1);
    var m3 := Run(RowStep(j, 2), m2);
    RowStepExact(j, 2, m2);
    var m4 := Run(RowStep(j, 3), m3);
    RowStepExact(j, 3, m3);
    forall l: Reg | l == 7 || l == 16 + j
      ensures Val(m3, l) == Val(m, l)
    {
      MacKeeps(m, m1, 8 + j, RowTerm(m, j, 0), l);
      MacKeeps(m1, m2, 9 + j, RowTerm(m1, j, 1), l);
      MacKeeps(m2, m3, 10 + j, RowTerm(m2, j, 2), l);
    }
    RowTopFits(j, m, m3, m4);
    RowTopExact(j, m4);
    RowChainIntro(j, m, m1, m2, m3, m4, Run(RowTop(j), m4));
    RowLink(j, m, m1, m2, m3, m4, Run(RowTop(j), m4));
  }

  // ----- the whole product -----

  /** The key held in R16..R19. */
  ghost function Key(m: Machine): nat {
    Limbs4(m, 16)
  }

  /** m' is m with the exact product of accumulator and key in R8..R15. */
  ghost predicate Multiplies(m: Machine, m': Machine) {
    && OnlyRegisters(m, m', 8, 16)
    && Limbs4(m', 8) + W4 * Limbs4(m', 12) == Product(Acc(m), Key(m))
  }

  lemma KeyArith(h: nat, r0: nat, r1: nat, r2: nat, r3: nat)
    ensures Product(h, r0 + W1 * r1 + W2 * r2 + W3 * r3)
      == Product(r0, h) + W1 * Product(r1, h) + W2 * Product(r2, h) + W3 * Product(r3, h)
  {
    RowArith(h, r0, r1, r2, r3, 0);
    assert h * r0 == r0 * h && h * r1 == r1 * h && h * r2 == r2 * h && h * r3 == r3 * h;
  }

  lemma RowsSum(p: seq<nat>, x: seq<nat>, y: seq<nat>, z: seq<nat>, w: seq<nat>)
    requires |p| == 4 && |x| == |y| == |z| == |w| == 5
    requires Sum5(x) == p[0] && Sum5(y) == Sum4(x[1..]) + p[1]
    requires Sum5(z) == Sum4(y[1..]) + p[2] && Sum5(w) == Sum4(z[1..]) + p[3]
    ensures x[0] + W1 * y[0] + W2 * z[0] + W3 * w[0] + W4 * Sum4(w[1..]) == Sum4(p)
  {
  }

  lemma RowValue(j: nat, m: Machine, m': Machine)
    requires j < 4 && RowDone(j, m, m')
    ensures Acc(m') == Acc(m)
    ensures Sum5(RowWords(j, m')) == (if j == 0 then 0 else Limbs4(m, 8 + j)) + Product(Val(m, 16 + j), Acc(m))
  {
    hide Product;
  }

  lemma RowsFrames(m: Machine, m1: Machine, m2: Machine, m3: Machine, m4: Machine)
    requires RowDone(0, m, m1) && RowDone(1, m1, m2) && RowDone(2, m2, m3) && RowDone(3, m3, m4)
    ensures OnlyRegisters(m, m4, 8, 16)
    ensures Val(m4, 8) == Val(m1, 8) && Val(m4, 9) == Val(m2, 9) && Val(m4, 10) == Val(m3, 10)
    ensures Val(m1, 17) == Val(m, 17) && Val(m2, 18) == Val(m, 18) && Val(m3, 19) == Val(m, 19)
  {
    hide Product, Limbs4, Acc;
  }

  lemma TailWords(j: nat, m: Machine)
    requires j < 3
    ensures Sum4(RowWords(j, m)[1..]) == Limbs4(m, 9 + j)
  {
  }

  lemma RowsLink(m: Machine, m1: Machine, m2: Machine, m3: Machine, m4: Machine)
    requires RowDone(0, m, m1) && RowDone(1, m1, m2) && RowDone(2, m2, m3) && RowDone(3, m3, m4)
    ensures Multiplies(m, m4)
  {
    hide *;
    var h := Acc(m);
    RowsFrames(m, m1, m2, m3, m4);
    RowValue(0, m, m1);
    RowValue(1, m1, m2);
    RowValue(2, m2, m3);
    RowValue(3, m3, m4);
    TailWords(0, m1);
    TailWords(1, m2);
    TailWords(2, m3);
    var p := [Product(Val(m, 16), h), Product(Val(m, 17), h), Product(Val(m, 18), h), Product(Val(m, 19), h)];
    RowsSum(p, RowWords(0, m1), RowWords(1, m2), RowWords(2, m3), RowWords(3, m4));
    KeyArith(h, Val(m, 16), Val(m, 17), Val(m, 18), Val(m, 19));
    Sum4Unfold(p);
    RowsClose(m, m1, m2, m3, m4, p);
  }

  lemma RowsClose(m: Machine, m1: Machine, m2: Machine, m3: Machine, m4: Machine, p: seq<nat>)
    requires |p| == 4
    requires OnlyRegisters(m, m4, 8, 16)
    requires Val(m4, 8) == Val(m1, 8) && Val(m4, 9) == Val(m2, 9) && Val(m4, 10) == Val(m3, 10)
    requires RowWords(0, m1)[0] + W1 * RowWords(1, m2)[0] + W2 * RowWords(2, m3)[0] + W3 * RowWords(3, m4)[0]
             + W4 * Sum4(RowWords(3, m4)[1..]) == Sum4(p)
    requires Product(Acc(m), Val(m, 16) + W1 * Val(m, 17) + W2 * Val(m, 18) + W3 * Val(m, 19)) == Sum4(p)
    ensures Multiplies(m, m4)
  {
    hide Product;
  }

  lemma RowsUnfold()
    ensures Rows(4) == Row(0) + Row(1) + Row(2) + Row(3)
  {
    hide RowSteps, RowTop;
    assert Rows(1) == Row(0);
    assert Rows(3) == Rows(2) + Row(2);
  }

  lemma RowKeeps(j: nat, m: Machine, m': Machine)
    requires j < 4 && RowDone(j, m, m')
    ensures Val(m', 7) == Val(m, 7) && (Clamped(m) ==> Clamped(m'))
  {
  }

  /** The row schoolbook code multiplies exactly. */
  lemma RowsExact(m: Machine)
    requires Clamped(m) && Val(m, 7) <= 7
    ensures Multiplies(m, Run(Rows(4), m))
  {
    hide *;
    RowsUnfold();
    RunAppend4(Row(0), Row(1), Row(2), Row(3), m);
    var m1 := Run(Row(0), m);
    RowExact(0, m);
    RowKeeps(0, m, m1);
    var m2 := Run(Row(1), m1);
    RowExact(1, m1);
    RowKeeps(1, m1, m2);
    var m3 := Run(Row(2), m2);
    RowExact(2, m2);
    RowKeeps(2, m2, m3);
    RowExact(3, m3);
    RowsLink(m, m1, m2, m3, Run(Row(3), m3));
  }
}
