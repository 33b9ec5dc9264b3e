/** The emitted leaf call that computes six 64x64-bit products at once: a, b, c
    times r and s, with a 32-bit carry chain. Arguments and results are words
    of the call frame: a, b, c, r, s in slots 0..9, results from slot 10. */
module Products {
  import opened Words
  import opened Mips
  import opened PolyBlocks
  import PolyRows

  // ----- emitted code -----

  function MulPair(a: Reg, b: Reg, d: Reg): seq<Instr>
    requires d < 31
  {
    [Multu(a, b), Mflo(d), Mfhi(d + 1)]
  }

  function AddTo(k: Reg, d: Reg, c: Reg): seq<Instr> {
    [Addu(k, d), Sgtu(k, d, c)]
  }

  function FullCore(): seq<Instr> {
    MulPair(3, 1, 8) + MulPair(4, 1, 10) + MulPair(3, 2, 12) + MulPair(4, 2, 14)
    + (AddTo(10, 9, 16) + AddTo(12, 9, 17) + [Addu(17, 16)] + AddTo(13, 11, 18)
       + (AddTo(14, 11, 19) + AddTo(16, 11, 20) + [Addu(19, 18), Addu(20, 18)] + [Addu(18, 15)]))
  }

  /** The short form for the limb c, whose high word is not loaded. */
  function ShortCore(): seq<Instr> {
    MulPair(3, 1, 8) + [Multu(4, 1), Mflo(10)] + [Addu(10, 9)] + [Move(0, 11), Move(0, 15)]
  }

  function LoadArgs(left: nat, right: nat): seq<Instr>
    requires left < 3 && right < 2
  {
    [Larg(2 * left, 1)] + (if left != 2 then [Larg(2 * left + 1, 2)] else [])
    + [Larg(6 + 2 * right, 3), Larg(7 + 2 * right, 4)]
  }

  function StoreResult(i: nat): seq<Instr> {
    [Sres(8, 10 + 4 * i), Sres(9, 11 + 4 * i)] + [Sres(11, 12 + 4 * i), Sres(15, 13 + 4 * i)]
  }

  function ProductCode(i: nat): seq<Instr>
    requires i < 6
  {
    LoadArgs(i % 3, i / 3) + ((if i % 3 == 2 then ShortCore() else FullCore()) + StoreResult(i))
  }

  function ProductsCode(n: nat): seq<Instr>
    requires n <= 6
  {
    if n == 0 then [] else ProductsCode(n - 1) + ProductCode(n - 1)
  }

  /** The generator's loop over the six products. */
  method WriteProducts() returns (out: seq<Instr>)
    ensures out == ProductsCode(6)
  {
    hide ProductCode;
    out := [];
    for i := 0 to 6
      invariant out == ProductsCode(i)
    {
      var code := WriteProduct(i);
      out := out + code;
    }
  }

  method WriteProduct(i: nat) returns (out: seq<Instr>)
    requires i < 6
    ensures out == ProductCode(i)
  {
    hide FullCore, ShortCore, StoreResult;
    var left, right := i % 3, i / 3;
    var load := [Larg(2 * left, 1)];
    if left != 2 {
      load := load + [Larg(2 * left + 1, 2)];
    }
    load := load + [Larg(6 + 2 * right, 3), Larg(7 + 2 * right, 4)];
    out := load + ((if left == 2 then ShortCore() else FullCore()) + StoreResult(i));
  }

  // ----- single steps -----

  /** m' is m but for registers a and b (and HI:LO). */
  ghost predicate Changed(m: Machine, m': Machine, a: Reg, b: Reg) {
    && (forall k: Reg :: k != a && k != b ==> m'.r[k] == m.r[k])
    && m'.mem == m.mem && m'.frame == m.frame && m'.faulted == m.faulted
  }

  ghost predicate Multiplied(m: Machine, m': Machine, a: Reg, b: Reg, d: nat)
    requires d < 31
  {
    Changed(m, m', d, d + 1) && Val(m', d) + WORD * Val(m', d + 1) == Product(Val(m, a), Val(m, b))
  }

  ghost predicate Added(m: Machine, m': Machine, k: Reg, d: Reg, c: Reg) {
    Changed(m, m', d, c) && Val(m', c) <= 1 && Val(m', d) + WORD * Val(m', c) == Val(m, d) + Val(m, k)
  }

  lemma MulPairExact(a: Reg, b: Reg, d: Reg, m: Machine)
    requires 0 < d < 31 && a !in {d, d + 1} && b !in {d, d + 1}
    ensures Multiplied(m, Run(MulPair(a, b, d), m), a, b, d)
  {
    hide Run, Product;
    var p := Product(Val(m, a), Val(m, b));
    RunThree(Multu(a, b), Mflo(d), Mfhi(d + 1), m);
    PolyRows.ProductBound(m.r[a], m.r[b]);
    assert p / WORD < WORD && p == p / WORD * WORD + p % WORD;
    var m1 := SetProduct(m, p);
    assert m1 == Step(Multu(a, b), m);
    assert Step(Mflo(d), m1) == SetReg(m1, d, p % WORD);
    assert Step(Mfhi(d + 1), SetReg(m1, d, p % WORD)) == SetReg(SetReg(m1, d, p % WORD), d + 1, p / WORD);
  }

  lemma AddToExact(k: Reg, d: Reg, c: Reg, m: Machine)
    requires d != 0 && c != 0 && k != d && c != d && c != k
    ensures Added(m, Run(AddTo(k, d, c), m), k, d, c)
  {
    hide Run;
    RunTwo(Addu(k, d), Sgtu(k, d, c), m);
    var x := AddWord(m.r[d], m.r[k]);
    assert Step(Addu(k, d), m) == SetReg(m, d, x);
    assert Step(Sgtu(k, d, c), SetReg(m, d, x)) == SetReg(SetReg(m, d, x), c, Carry(m.r[k], x));
    assert (x as nat) + WORD * Carry(m.r[k], x) == Val(m, d) + Val(m, k);
  }

  lemma AddSmallExact(k: Reg, d: Reg, m: Machine)
    requires d != 0 && Val(m, d) + Val(m, k) < WORD
    ensures var m' := Run([Addu(k, d)], m);
      Changed(m, m', d, d) && Val(m', d) == Val(m, d) + Val(m, k)
  {
    hide Run;
    StepAddu(k, d, m);
  }

  // ----- the full 64x64 carry chain -----

  lemma Square(x0: nat, x1: nat, y0: nat, y1: nat)
    ensures Product(x0 + WORD * x1, y0 + WORD * y1)
         == Product(y0, x0) + W1 * (Product(y1, x0) + Product(y0, x1)) + W2 * Product(y1, x1)
  {
    assert (x0 + WORD * x1) * (y0 + WORD * y1) == x0 * y0 + x0 * (WORD * y1) + (WORD * x1) * y0 + (WORD * x1) * (WORD * y1);
    assert x0 * (WORD * y1) == W1 * (y1 * x0);
    assert (WORD * x1) * y0 == W1 * (y0 * x1);
    assert (WORD * x1) * (WORD * y1) == W2 * (y1 * x1);
  }

  /** The words of a 128-bit result in R8, R9, R11, R15. */
  ghost function Result(m: Machine): nat {
    Val(m, 8) + W1 * Val(m, 9) + W2 * Val(m, 11) + W3 * Val(m, 15)
  }

  ghost function Left(m: Machine): nat {
    Val(m, 1) + WORD * Val(m, 2)
  }

  ghost function Right(m: Machine): nat {
    Val(m, 3) + WORD * Val(m, 4)
  }

  ghost predicate FourProducts(m: Machine, m': Machine) {
    && (forall k: Reg :: !(8 <= k < 16) ==> m'.r[k] == m.r[k])
    && m'.mem == m.mem && m'.frame == m.frame && m'.faulted == m.faulted
    && Val(m', 8) + WORD * Val(m', 9) == Product(Val(m, 3), Val(m, 1))
    && Val(m', 10) + WORD * Val(m', 11) == Product(Val(m, 4), Val(m, 1))
    && Val(m', 12) + WORD * Val(m', 13) == Product(Val(m, 3), Val(m, 2))
    && Val(m', 14) + WORD * Val(m', 15) == Product(Val(m, 4), Val(m, 2))
  }

  lemma FourLink(m: Machine, m1: Machine, m2: Machine, m3: Machine, m4: Machine)
    requires Multiplied(m, m1, 3, 1, 8) && Multiplied(m1, m2, 4, 1, 10)
    requires Multiplied(m2, m3, 3, 2, 12) && Multiplied(m3, m4, 4, 2, 14)
    ensures FourProducts(m, m4)
  {
    hide Product;
  }

  lemma FourExact(m: Machine)
    ensures FourProducts(m, Run(MulPair(3, 1, 8) + MulPair(4, 1, 10) + MulPair(3, 2, 12) + MulPair(4, 2, 14), m))
  {
    hide *;
    RunAppend4(MulPair(3, 1, 8), MulPair(4, 1, 10), MulPair(3, 2, 12), MulPair(4, 2, 14), m);
    var m1 := Run(MulPair(3, 1, 8), m);
    MulPairExact(3, 1, 8, m);
    var m2 := Run(MulPair(4, 1, 10), m1);
    MulPairExact(4, 1, 10, m1);
    var m3 := Run(MulPair(3, 2, 12), m2);
    MulPairExact(3, 2, 12, m2);
    MulPairExact(4, 2, 14, m3);
    FourLink(m, m1, m2, m3, Run(MulPair(4, 2, 14), m3));
  }

  /** The four products, each at its weight. */
  ghost function Weighted(m: Machine): nat {
    Val(m, 8) + W1 * (Val(m, 9) + Val(m, 10) + Val(m, 12)) + W2 * (Val(m, 11) + Val(m, 13) + Val(m, 14)) + W3 * Val(m, 15)
  }

  ghost predicate KeepsLow(m: Machine, m': Machine) {
    && (forall k: Reg :: k < 8 ==> m'.r[k] == m.r[k])
    && m'.mem == m.mem && m'.frame == m.frame && m'.faulted == m.faulted
  }

  ghost predicate Middle(m: Machine, n: Machine) {
    && KeepsLow(m, n)
    && Val(n, 8) == Val(m, 8) && Val(n, 14) == Val(m, 14) && Val(n, 15) == Val(m, 15)
    && Val(n, 16) <= 2 && Val(n, 18) <= 1
    && Val(n, 9) + WORD * Val(n, 16) == Val(m, 9) + Val(m, 10) + Val(m, 12)
    && Val(n, 11) + WORD * Val(n, 18) == Val(m, 11) + Val(m, 13)
  }

  lemma MiddleLink(m: Machine, n1: Machine, n2: Machine, n3: Machine, n4: Machine)
    requires Added(m, n1, 10, 9, 16) && Added(n1, n2, 12, 9, 17)
    requires Changed(n2, n3, 16, 16) && Val(n3, 16) == Val(n2, 16) + Val(n2, 17)
    requires Added(n3, n4, 13, 11, 18)
    ensures Middle(m, n4)
  {
  }

  lemma CarriesSmall(m: Machine, n1: Machine, n2: Machine)
    requires Added(m, n1, 10, 9, 16) && Added(n1, n2, 12, 9, 17)
    ensures Val(n2, 16) + Val(n2, 17) < WORD
  {
  }

  lemma MiddleExact(m: Machine)
    ensures Middle(m, Run(AddTo(10, 9, 16) + AddTo(12, 9, 17) + [Addu(17, 16)] + AddTo(13, 11, 18), m))
  {
    hide *;
    RunAppend4(AddTo(10, 9, 16), AddTo(12, 9, 17), [Addu(17, 16)], AddTo(13, 11, 18), m);
    var n1 := Run(AddTo(10, 9, 16), m);
    AddToExact(10, 9, 16, m);
    var n2 := Run(AddTo(12, 9, 17), n1);
    AddToExact(12, 9, 17, n1);
    CarriesSmall(m, n1, n2);
    AddSmallExact(17, 16, n2);
    var n3 := Run([Addu(17, 16)], n2);
    AddToExact(13, 11, 18, n3);
    MiddleLink(m, n1, n2, n3, Run(AddTo(13, 11, 18), n3));
  }

  ghost predicate Upper(m: Machine, n: Machine) {
    && KeepsLow(m, n)
    && Val(n, 8) == Val(m, 8) && Val(n, 9) == Val(m, 9) && Val(n, 15) == Val(m, 15)
    && Val(n, 11) + WORD * Val(n, 18) == Val(m, 11) + Val(m, 14) + Val(m, 16) + WORD * Val(m, 18)
  }

  lemma UpperLink(m: Machine, n1: Machine, n2: Machine, n3: Machine, n4: Machine)
    requires Added(m, n1, 14, 11, 19) && Added(n1, n2, 16, 11, 20)
    requires Changed(n2, n3, 18, 18) && Val(n3, 18) == Val(n2, 18) + Val(n2, 19)
    requires Changed(n3, n4, 18, 18) && Val(n4, 18) == Val(n3, 18) + Val(n3, 20)
    ensures Upper(m, n4)
  {
  }

  lemma UpperSmall(m: Machine, n1: Machine, n2: Machine)
    requires Val(m, 18) <= 1 && Added(m, n1, 14, 11, 19) && Added(n1, n2, 16, 11, 20)
    ensures Val(n2, 18) + Val(n2, 19) + Val(n2, 20) <= 3
  {
  }

  lemma KeepsTwenty(n2: Machine, n3: Machine)
    requires Changed(n2, n3, 18, 18)
    ensures Val(n3, 20) == Val(n2, 20)
  {
  }

  lemma UpperExact(m: Machine)
    requires Val(m, 18) <= 1
    ensures Upper(m, Run(AddTo(14, 11, 19) + AddTo(16, 11, 20) + [Addu(19, 18), Addu(20, 18)], m))
  {
    hide *;
    TwoAddu();
    RunAppend4(AddTo(14, 11, 19), AddTo(16, 11, 20), [Addu(19, 18)], [Addu(20, 18)], m);
    var n1 := Run(AddTo(14, 11, 19), m);
    AddToExact(14, 11, 19, m);
    var n2 := Run(AddTo(16, 11, 20), n1);
    AddToExact(16, 11, 20, n1);
    UpperSmall(m, n1, n2);
    SmallIsWord(Val(n2, 18) + Val(n2, 19) + Val(n2, 20));
    AddSmallExact(19, 18, n2);
    var n3 := Run([Addu(19, 18)], n2);
    KeepsTwenty(n2, n3);
    AddSmallExact(20, 18, n3);
    UpperLink(m, n1, n2, n3, Run([Addu(20, 18)], n3));
  }

  lemma SmallIsWord(x: nat)
    requires x <= 3
    ensures x < WORD
  {
  }

  lemma TwoAddu()
    ensures AddTo(14, 11, 19) + AddTo(16, 11, 20) + [Addu(19, 18), Addu(20, 18)]
         == AddTo(14, 11, 19) + AddTo(16, 11, 20) + [Addu(19, 18)] + [Addu(20, 18)]
  {
  }

  /** m' is m with the exact product of R2:R1 and R4:R3 in R8, R9, R11, R15. */
  ghost predicate ProductDone(m: Machine, m': Machine, x: nat) {
    KeepsLow(m, m') && Result(m') == Product(x, Right(m))
  }

  lemma ProductFits(m: Machine)
    ensures Product(Left(m), Right(m)) < W4
  {
    MulMonotone(Left(m), W2 - 1, Right(m));
    MulMonotone(Right(m), W2 - 1, W2 - 1);
    assert (W2 - 1) * Right(m) == Right(m) * (W2 - 1);
  }

  lemma FullLink(m: Machine, m4: Machine, n4: Machine, n8: Machine)
    requires FourProducts(m, m4) && Middle(m4, n4) && Upper(n4, n8)
    ensures KeepsLow(m, n8)
    ensures Result(n8) + W3 * Val(n8, 18) == Product(Left(m), Right(m))
    ensures Val(n8, 15) + Val(n8, 18) < WORD
  {
    hide Product;
    Square(Val(m, 1), Val(m, 2), Val(m, 3), Val(m, 4));
    ProductFits(m);
    FullSum(m4, n4, n8);
  }

  lemma FullSum(m4: Machine, n4: Machine, n8: Machine)
    requires Middle(m4, n4) && Upper(n4, n8)
    ensures Result(n8) + W3 * Val(n8, 18) == Weighted(m4)
  {
  }

  lemma FullClose(m: Machine, n8: Machine, m': Machine)
    requires KeepsLow(m, n8) && Result(n8) + W3 * Val(n8, 18) == Product(Left(m), Right(m))
    requires Changed(n8, m', 15, 15) && Val(m', 15) == Val(n8, 15) + Val(n8, 18)
    ensures ProductDone(m, m', Left(m))
  {
    hide Product;
  }

  /** The full carry chain is an exact 64x64 multiply, with no bound needed. */
  lemma FullExact(m: Machine)
    ensures ProductDone(m, Run(FullCore(), m), Left(m))
  {
    hide *;
    var p := MulPair(3, 1, 8) + MulPair(4, 1, 10) + MulPair(3, 2, 12) + MulPair(4, 2, 14);
    var q := AddTo(10, 9, 16) + AddTo(12, 9, 17) + [Addu(17, 16)] + AddTo(13, 11, 18);
    var s := AddTo(14, 11, 19) + AddTo(16, 11, 20) + [Addu(19, 18), Addu(20, 18)];
    FullUnfold();
    RunAppend(p, q + (s + [Addu(18, 15)]), m);
    var m4 := Run(p, m);
    FourExact(m);
    RunAppend(q, s + [Addu(18, 15)], m4);
    var n4 := Run(q, m4);
    MiddleExact(m4);
    MiddleCarry(m4, n4);
    RunAppend(s, [Addu(18, 15)], n4);
    var n8 := Run(s, n4);
    UpperExact(n4);
    FullLink(m, m4, n4, n8);
    AddSmallExact(18, 15, n8);
    FullClose(m, n8, Run([Addu(18, 15)], n8));
  }

  lemma MiddleCarry(m: Machine, n: Machine)
    requires Middle(m, n)
    ensures Val(n, 18) <= 1
  {
  }

  lemma FullUnfold()
    ensures FullCore() == MulPair(3, 1, 8) + MulPair(4, 1, 10) + MulPair(3, 2, 12) + MulPair(4, 2, 14)
      + (AddTo(10, 9, 16) + AddTo(12, 9, 17) + [Addu(17, 16)] + AddTo(13, 11, 18)
         + (AddTo(14, 11, 19) + AddTo(16, 11, 20) + [Addu(19, 18), Addu(20, 18)] + [Addu(18, 15)]))
  {
  }

  // ----- the short form -----

  lemma ShortBound(c: nat, y0: nat, y1: nat)
    requires c <= 7 && y0 < 0x1000_0000 && y1 < 0x1000_0000
    ensures Product(y0, c) < WORD && Product(y1, c) < WORD
  {
    MulMonotone(c, 7, y0);
    MulMonotone(c, 7, y1);
    assert y0 * c == c * y0 && y1 * c == c * y1;
  }

  lemma ShortValue(c: nat, y0: nat, y1: nat)
    ensures Product(c, y0 + WORD * y1) == Product(y0, c) + WORD * Product(y1, c)
  {
    Square(c, 0, y0, y1);
  }

  lemma LowProduct(a: Reg, b: Reg, d: Reg, m: Machine)
    requires d != 0 && Product(Val(m, a), Val(m, b)) < WORD
    ensures var m' := Run([Multu(a, b), Mflo(d)], m);
      Changed(m, m', d, d) && Val(m', d) == Product(Val(m, a), Val(m, b))
  {
    hide Run, Product;
    RunTwo(Multu(a, b), Mflo(d), m);
    var p := Product(Val(m, a), Val(m, b));
    assert Step(Multu(a, b), m) == SetProduct(m, p) && p % WORD == p;
  }

  lemma ShortLink(m: Machine, m1: Machine, m2: Machine, m3: Machine)
    requires Val(m, 1) <= 7 && Val(m, 3) < 0x1000_0000 && Val(m, 4) < 0x1000_0000
    requires Multiplied(m, m1, 3, 1, 8)
    requires Changed(m1, m2, 10, 10) && Val(m2, 10) == Product(Val(m1, 4), Val(m1, 1))
    requires Changed(m2, m3, 9, 9) && Val(m3, 9) == Val(m2, 9) + Val(m2, 10)
    ensures ProductDone(m, SetReg(SetReg(m3, 11, 0), 15, 0), Val(m, 1))
  {
    hide Product;
    ShortValue(Val(m, 1), Val(m, 3), Val(m, 4));
    var m' := SetReg(SetReg(m3, 11, 0), 15, 0);
    assert Val(m', 8) == Val(m1, 8) && Val(m', 9) == Val(m1, 9) + Val(m2, 10);
  }

  lemma ShortFits(m: Machine, m1: Machine, m2: Machine)
    requires Val(m, 1) <= 7 && Val(m, 3) < 0x1000_0000 && Val(m, 4) < 0x1000_0000
    requires Multiplied(m, m1, 3, 1, 8)
    requires Changed(m1, m2, 10, 10) && Val(m2, 10) == Product(Val(m1, 4), Val(m1, 1))
    ensures Val(m2, 9) + Val(m2, 10) < WORD
  {
    hide Product;
    ShortBound(Val(m, 1), Val(m, 3), Val(m, 4));
  }

  lemma ShortInputs(m: Machine, m1: Machine)
    requires Multiplied(m, m1, 3, 1, 8)
    ensures Val(m1, 4) == Val(m, 4) && Val(m1, 1) == Val(m, 1)
  {
    hide Product;
  }

  lemma ShortUnfold()
    ensures ShortCore() == MulPair(3, 1, 8) + [Multu(4, 1), Mflo(10)] + [Addu(10, 9)] + [Move(0, 11), Move(0, 15)]
  {
  }

  /** The short form drops three carries; all are zero for c <= 7 and a clamped key. */
  lemma ShortExact(m: Machine)
    requires Val(m, 1) <= 7 && Val(m, 3) < 0x1000_0000 && Val(m, 4) < 0x1000_0000
    ensures ProductDone(m, Run(ShortCore(), m), Val(m, 1))
  {
    hide *;
    ShortUnfold();
    RunAppend4(MulPair(3, 1, 8), [Multu(4, 1), Mflo(10)], [Addu(10, 9)], [Move(0, 11), Move(0, 15)], m);
    var m1 := Run(MulPair(3, 1, 8), m);
    MulPairExact(3, 1, 8, m);
    ShortInputs(m, m1);
    ShortBound(Val(m, 1), Val(m, 3), Val(m, 4));
    LowProduct(4, 1, 10, m1);
    var m2 := Run([Multu(4, 1), Mflo(10)], m1);
    ShortFits(m, m1, m2);
    AddSmallExact(10, 9, m2);
    var m3 := Run([Addu(10, 9)], m2);
    PolyRows.MoveTwo(0, 11, 0, 15, m3);
    ZeroRegister(m3);
    ShortLink(m, m1, m2, m3);
  }

  // ----- six products through the call frame -----

  /** Argument k of the frame: a, b, c, r, s. */
  ghost function Arg(f: seq<Word>, k: nat): nat
    requires |f| == 34 && k < 5
  {
    f[2 * k] as nat + WORD * f[2 * k + 1]
  }

  /** The 128-bit result i of the frame: ar, br, cr, as, bs, cs. */
  ghost function ResultAt(f: seq<Word>, i: nat): nat
    requires |f| == 34 && i < 6
  {
    f[10 + 4 * i] as nat + W1 * f[11 + 4 * i] + W2 * f[12 + 4 * i] + W3 * f[13 + 4 * i]
  }

  /** What callers guarantee: c at most seven, r and s clamped. */
  ghost predicate Callable(f: seq<Word>) {
    |f| == 34 && f[4] <= 7 && f[5] == 0 && forall k :: 6 <= k < 10 ==> f[k] < 0x1000_0000
  }

  ghost predicate ArgsLoaded(m: Machine, m': Machine, left: nat, right: nat)
    requires |m.frame| == 34 && left < 3 && right < 2
  {
    && m'.mem == m.mem && m'.frame == m.frame && m'.faulted == m.faulted
    && m'.r[1] == m.frame[2 * left] && (left != 2 ==> m'.r[2] == m.frame[2 * left + 1])
    && m'.r[3] == m.frame[6 + 2 * right] && m'.r[4] == m.frame[7 + 2 * right]
  }

  lemma LargOne(k: nat, d: Reg, m: Machine)
    requires k < |m.frame|
    ensures Run([Larg(k, d)], m) == SetReg(m, d, m.frame[k])
  {
    hide Run;
    RunOne(Larg(k, d), m);
  }

  lemma LoadArgsExact(left: nat, right: nat, m: Machine)
    requires |m.frame| == 34 && left < 3 && right < 2
    ensures ArgsLoaded(m, Run(LoadArgs(left, right), m), left, right)
  {
    hide Run, Step;
    var opt := if left != 2 then [Larg(2 * left + 1, 2)] else [];
    assert [Larg(6 + 2 * right, 3), Larg(7 + 2 * right, 4)] == [Larg(6 + 2 * right, 3)] + [Larg(7 + 2 * right, 4)];
    assert LoadArgs(left, right) == [Larg(2 * left, 1)] + opt + [Larg(6 + 2 * right, 3)] + [Larg(7 + 2 * right, 4)];
    RunAppend4([Larg(2 * left, 1)], opt, [Larg(6 + 2 * right, 3)], [Larg(7 + 2 * right, 4)], m);
    LargOne(2 * left, 1, m);
    var m1 := SetReg(m, 1, m.frame[2 * left]);
    var m2 := Run(opt, m1);
    if left != 2 {
      LargOne(2 * left + 1, 2, m1);
    } else {
      RunNothing(m1);
    }
    LargOne(6 + 2 * right, 3, m2);
    LargOne(7 + 2 * right, 4, SetReg(m2, 3, m.frame[6 + 2 * right]));
  }

  ghost function Stored(f: seq<Word>, i: nat, m: Machine): seq<Word>
    requires |f| == 34 && i < 6
  {
    f[10 + 4 * i := m.r[8]][11 + 4 * i := m.r[9]][12 + 4 * i := m.r[11]][13 + 4 * i := m.r[15]]
  }

  lemma SresOne(a: Reg, j: nat, m: Machine)
    requires j < |m.frame|
    ensures Step(Sres(a, j), m) == m.(frame := m.frame[j := m.r[a]])
  {
  }

  lemma SresTwo(a: Reg, j: nat, b: Reg, k: nat, m: Machine)
    requires j < |m.frame| && k < |m.frame|
    ensures Run([Sres(a, j), Sres(b, k)], m) == m.(frame := m.frame[j := m.r[a]][k := m.r[b]])
  {
    hide Run, Step;
    RunTwo(Sres(a, j), Sres(b, k), m);
    SresOne(a, j, m);
    SresOne(b, k, m.(frame := m.frame[j := m.r[a]]));
  }

  lemma StoreResultExact(i: nat, m: Machine)
    requires |m.frame| == 34 && i < 6
    ensures Run(StoreResult(i), m) == m.(frame := Stored(m.frame, i, m))
  {
    hide Run, Step;
    RunAppend([Sres(8, 10 + 4 * i), Sres(9, 11 + 4 * i)], [Sres(11, 12 + 4 * i), Sres(15, 13 + 4 * i)], m);
    SresTwo(8, 10 + 4 * i, 9, 11 + 4 * i, m);
    SresTwo(11, 12 + 4 * i, 15, 13 + 4 * i, m.(frame := m.frame[10 + 4 * i := m.r[8]][11 + 4 * i := m.r[9]]));
  }

  /** m' is m with result i computed and nothing else in the frame changed. */
  ghost predicate OneProduct(i: nat, m: Machine, m': Machine)
    requires i < 6 && |m.frame| == 34
  {
    && m'.mem == m.mem && m'.faulted == m.faulted && |m'.frame| == 34
    && (forall k :: 0 <= k < 34 && !(10 + 4 * i <= k < 14 + 4 * i) ==> m'.frame[k] == m.frame[k])
    && ResultAt(m'.frame, i) == Product(Arg(m.frame, i % 3), Arg(m.frame, 3 + i / 3))
  }

  lemma OneLink(i: nat, m: Machine, m1: Machine, m2: Machine)
    requires i < 6 && Callable(m.frame) && ArgsLoaded(m, m1, i % 3, i / 3)
    requires ProductDone(m1, m2, if i % 3 == 2 then Val(m1, 1) else Left(m1))
    ensures OneProduct(i, m, m2.(frame := Stored(m2.frame, i, m2)))
  {
    hide Product;
    assert Right(m1) == Arg(m.frame, 3 + i / 3);
    assert (if i % 3 == 2 then Val(m1, 1) else Left(m1)) == Arg(m.frame, i % 3);
    assert ResultAt(Stored(m2.frame, i, m2), i) == Result(m2);
  }

  lemma ShortReady(i: nat, m: Machine, m1: Machine)
    requires i < 6 && i % 3 == 2 && Callable(m.frame) && ArgsLoaded(m, m1, 2, i / 3)
    ensures Val(m1, 1) <= 7 && Val(m1, 3) < 0x1000_0000 && Val(m1, 4) < 0x1000_0000
  {
  }

  lemma ProductCodeUnfold(i: nat)
    requires i < 6
    ensures ProductCode(i) == LoadArgs(i % 3, i / 3) + ((if i % 3 == 2 then ShortCore() else FullCore()) + StoreResult(i))
  {
  }

  lemma DoneFrame(m: Machine, m': Machine, x: nat)
    requires ProductDone(m, m', x)
    ensures m'.frame == m.frame
  {
  }

  lemma ProductCodeExact(i: nat, m: Machine)
    requires i < 6 && Callable(m.frame)
    ensures OneProduct(i, m, Run(ProductCode(i), m))
  {
    hide Run, Step, LoadArgs, FullCore, ShortCore, StoreResult, ProductCode, ArgsLoaded, ProductDone, OneProduct, Stored, Left;
    var core := if i % 3 == 2 then ShortCore() else FullCore();
    ProductCodeUnfold(i);
    RunAppend(LoadArgs(i % 3, i / 3), core + StoreResult(i), m);
    var m1 := Run(LoadArgs(i % 3, i / 3), m);
    LoadArgsExact(i % 3, i / 3, m);
    RunAppend(core, StoreResult(i), m1);
    var m2 := Run(core, m1);
    if i % 3 == 2 {
      ShortReady(i, m, m1);
      ShortExact(m1);
      DoneFrame(m1, m2, Val(m1, 1));
    } else {
      FullExact(m1);
      DoneFrame(m1, m2, Left(m1));
    }
    LoadedFrame(m, m1, i % 3, i / 3);
    StoreResultExact(i, m2);
    OneLink(i, m, m1, m2);
  }

  lemma LoadedFrame(m: Machine, m1: Machine, left: nat, right: nat)
    requires |m.frame| == 34 && left < 3 && right < 2 && ArgsLoaded(m, m1, left, right)
    ensures m1.frame == m.frame
  {
  }

  /** m' is m with the first n results computed. */
  ghost predicate ProductsDone(n: nat, m: Machine, m': Machine)
    requires n <= 6 && |m.frame| == 34
  {
    && m'.mem == m.mem && m'.faulted == m.faulted
    && |m'.frame| == 34 && m'.frame[..10] == m.frame[..10]
    && (forall i :: 0 <= i < n ==> ResultAt(m'.frame, i) == Product(Arg(m.frame, i % 3), Arg(m.frame, 3 + i / 3)))
  }

  lemma ProductsLink(n: nat, m: Machine, m1: Machine, m2: Machine)
    requires n < 6 && |m.frame| == 34 && ProductsDone(n, m, m1) && OneProduct(n, m1, m2)
    requires forall k :: 0 <= k < 5 ==> Arg(m1.frame, k) == Arg(m.frame, k)
    ensures ProductsDone(n + 1, m, m2)
  {
    hide Product, Arg;
    forall i | 0 <= i < n
      ensures ResultAt(m2.frame, i) == ResultAt(m1.frame, i)
    {
    }
    assert m2.frame[..10] == m1.frame[..10];
  }

  /** The leaf call returns all six products exactly and keeps its arguments. */
  lemma {:induction false} ProductsExact(n: nat, m: Machine)
    requires n <= 6 && Callable(m.frame)
    ensures ProductsDone(n, m, Run(ProductsCode(n), m))
  {
    hide Run, Step, ProductCode, ProductsDone, OneProduct, Arg;
    if n == 0 {
      RunNothing(m);
      NoneDone(m);
    } else {
      ProductsExact(n - 1, m);
      RunAppend(ProductsCode(n - 1), ProductCode(n - 1), m);
      var m1 := Run(ProductsCode(n - 1), m);
      ArgsKept(n - 1, m, m1);
      ProductCodeExact(n - 1, m1);
      ProductsLink(n - 1, m, m1, Run(ProductCode(n - 1), m1));
    }
  }

  lemma NoneDone(m: Machine)
    requires |m.frame| == 34
    ensures ProductsDone(0, m, m)
  {
  }

  lemma ArgsKept(n: nat, m: Machine, m1: Machine)
    requires n <= 6 && Callable(m.frame) && ProductsDone(n, m, m1)
    ensures Callable(m1.frame) && forall k :: 0 <= k < 5 ==> Arg(m1.frame, k) == Arg(m.frame, k)
  {
    hide ResultAt, Product;
    assert forall k :: 0 <= k < 10 ==> m1.frame[k] == m1.frame[..10][k] == m.frame[k];
  }
}
