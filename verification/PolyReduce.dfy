/** The reduction of the Poly1305 block, and one whole block. */
module PolyReduce {
  import opened Words
  import opened Mips
  import opened PolyBlocks
  import opened PolyRows
  import PolyColumns
  import opened Poly1305

  /** The product held in R8..R15. */
  ghost function Prod(m: Machine): nat {
    Limbs4(m, 8) + W4 * Limbs4(m, 12)
  }

  // ----- splitting at bit 130 -----

  ghost predicate TakesLow(m: Machine, m': Machine) {
    && OnlyRegisters(m, m', 3, 13)
    && Acc(m') == Prod(m) % TWO_130
    && Limbs4(m', 12) == 4 * (Prod(m) / TWO_130)
  }

  ghost function Split(m: Machine): Machine {
    var w := m.r[12];
    m.(r := m.r[3 := m.r[8]][4 := m.r[9]][5 := m.r[10]][6 := m.r[11]][7 := w % 4][12 := w - w % 4])
  }

  lemma TakeLowRun(m: Machine)
    ensures Run(TakeLow, m) == Split(m)
  {
    hide Run;
    AndTwoBits(m.r[12]);
    var l := TakeLow;
    assert l == [l[0], l[1], l[2]] + [l[3], l[4], l[5]];
    RunAppend([l[0], l[1], l[2]], [l[3], l[4], l[5]], m);
    RunThree(l[0], l[1], l[2], m);
    var m1 := m.(r := m.r[3 := m.r[8]][4 := m.r[9]][5 := m.r[10]]);
    assert m1 == Step(l[2], Step(l[1], Step(l[0], m)));
    RunThree(l[3], l[4], l[5], m1);
  }

  lemma SplitAt130(lo: nat, w: nat, hi: nat)
    requires lo < W4
    ensures var p := lo + W4 * (w + WORD * hi);
      p % TWO_130 == lo + W4 * (w % 4) && 4 * (p / TWO_130) == w - w % 4 + WORD * hi
  {
    var p := lo + W4 * (w + WORD * hi);
    ModUnique(p, TWO_130, w / 4 + WORD / 4 * hi, lo + W4 * (w % 4));
  }

  lemma TakeLowExact(m: Machine)
    ensures TakesLow(m, Run(TakeLow, m))
  {
    hide Run, Step;
    TakeLowRun(m);
    SplitAt130(Limbs4(m, 8), Val(m, 12), Val(m, 13) + W1 * Val(m, 14) + W2 * Val(m, 15));
  }

  // ----- shifting right by two bits -----

  lemma ShiftLeft30(w: Word)
    ensures ShiftLeft(30, w) == w % 4 * 0x4000_0000
  {
    Pow2Table();
    assert w * 0x4000_0000 == w / 4 * WORD + w % 4 * 0x4000_0000;
    ModUnique(w * 0x4000_0000, WORD, w / 4, w % 4 * 0x4000_0000);
  }

  lemma ShiftOr(v: Word, w: Word)
    ensures WordOr(ShiftLeft(30, w), ShiftRight(2, v)) == v / 4 + w % 4 * 0x4000_0000
  {
    hide ShiftLeft;
    Pow2Table();
    ShiftLeft30(w);
    assert v / 4 < Pow2(30) && w % 4 * 0x4000_0000 % Pow2(30) == 0;
    OrOfDisjoint(30, v / 4, w % 4 * 0x4000_0000);
    OrSwap(w % 4 * 0x4000_0000, v / 4);
  }

  function ShiftStep(i: nat): seq<Instr>
    requires i < 3
  {
    [Srl(2, 12 + i), Sll(30, 13 + i, 20), Or(20, 12 + i, 12 + i)]
  }

  /** m' is m with register 12+i shifted right, the next word's low bits on top. */
  ghost predicate Shifts(i: nat, m: Machine, m': Machine)
    requires i < 4
  {
    && OnlyRegisters(m, m', 12 + i, 13 + i)
    && Val(m', 12 + i) == Val(m, 12 + i) / 4 + if i < 3 then Val(m, 13 + i) % 4 * 0x4000_0000 else 0
  }

  lemma ShiftStepExact(i: nat, m: Machine)
    requires i < 3
    ensures Shifts(i, m, Run(ShiftStep(i), m))
  {
    hide Run, ShiftLeft, ShiftRight, WordOr;
    RunThree(Srl(2, 12 + i), Sll(30, 13 + i, 20), Or(20, 12 + i, 12 + i), m);
    var v, w := ShiftRight(2, m.r[12 + i]), ShiftLeft(30, m.r[13 + i]);
    var m1 := SetReg(SetReg(m, 12 + i, v), 20, w);
    assert m1 == Step(Sll(30, 13 + i, 20), Step(Srl(2, 12 + i), m));
    ShiftOr(m.r[12 + i], m.r[13 + i]);
  }

  lemma ShiftTopExact(m: Machine)
    ensures Shifts(3, m, Run([Srl(2, 15)], m))
  {
    RunOne(Srl(2, 15), m);
    Pow2Table();
  }

  lemma ShiftChainUnfold()
    ensures ShiftChain(4) == ShiftStep(0) + ShiftStep(1) + ShiftStep(2) + [Srl(2, 15)]
  {
    assert ShiftChain(1) == ShiftStep(0);
    assert ShiftChain(3) == ShiftChain(2) + ShiftStep(2);
  }

  lemma QuarterSum(v0: nat, v1: nat, v2: nat, v3: nat)
    requires v0 % 4 == 0
    ensures v0 / 4 + v1 % 4 * 0x4000_0000 + W1 * (v1 / 4 + v2 % 4 * 0x4000_0000)
            + W2 * (v2 / 4 + v3 % 4 * 0x4000_0000) + W3 * (v3 / 4)
         == (v0 + W1 * v1 + W2 * v2 + W3 * v3) / 4
  {
  }

  ghost predicate ShiftsAll(m: Machine, m': Machine) {
    && OnlyRegisters(m, m', 12, 16)
    && Limbs4(m', 12) == Limbs4(m, 12) / 4
  }

  lemma ShiftLink(m: Machine, m1: Machine, m2: Machine, m3: Machine, m4: Machine)
    requires Val(m, 12) % 4 == 0
    requires Shifts(0, m, m1) && Shifts(1, m1, m2) && Shifts(2, m2, m3) && Shifts(3, m3, m4)
    ensures ShiftsAll(m, m4)
  {
    QuarterSum(Val(m, 12), Val(m, 13), Val(m, 14), Val(m, 15));
  }

  lemma ShiftChainExact(m: Machine)
    requires Val(m, 12) % 4 == 0
    ensures ShiftsAll(m, Run(ShiftChain(4), m))
  {
    hide *;
    ShiftChainUnfold();
    RunAppend4(ShiftStep(0), ShiftStep(1), ShiftStep(2), [Srl(2, 15)], m);
    var m1 := Run(ShiftStep(0), m);
    ShiftStepExact(0, m);
    var m2 := Run(ShiftStep(1), m1);
    ShiftStepExact(1, m1);
    var m3 := Run(ShiftStep(2), m2);
    ShiftStepExact(2, m2);
    ShiftTopExact(m3);
    ShiftLink(m, m1, m2, m3, Run([Srl(2, 15)], m3));
  }

  // ----- the reduction -----

  ghost predicate Reduces(m: Machine, m': Machine) {
    && OnlyRegisters(m, m', 3, 16)
    && Acc(m') == Partial(Prod(m))
  }

  lemma ReduceUnfold()
    ensures Reduce() == TakeLow + FoldIn() + (ShiftChain(4) + FoldIn())
  {
  }

  lemma LowWord(m: Machine, m1: Machine, m2: Machine)
    requires TakesLow(m, m1) && Limbs4(m2, 12) == Limbs4(m1, 12)
    ensures Val(m2, 12) % 4 == 0
  {
    hide Prod, Acc;
    var q := Prod(m) / TWO_130;
    var rest := Val(m2, 13) + W1 * Val(m2, 14) + W2 * Val(m2, 15);
    assert Val(m2, 12) == 4 * (q - 0x4000_0000 * rest);
  }

  lemma ReduceLink(m: Machine, m1: Machine, m2: Machine, m3: Machine, m4: Machine)
    requires TakesLow(m, m1) && AddsAcc(m1, m2, Limbs4(m1, 12)) && ShiftsAll(m2, m3) && AddsAcc(m3, m4, Limbs4(m3, 12))
    ensures Reduces(m, m4)
  {
    var c := Prod(m) / TWO_130;
    assert Limbs4(m2, 12) == 4 * c;
    assert Limbs4(m3, 12) == c;
    assert Acc(m3) == Acc(m2);
  }

  /** Sizes: below 2^255 neither addition can carry out of R7. */
  lemma ReduceFits(m: Machine, m1: Machine)
    requires TakesLow(m, m1) && Prod(m) < 8 * W4 * KEY_LIMIT
    ensures Acc(m1) + Limbs4(m1, 12) < WORD * W4
  {
    hide Acc, Limbs4, Prod;
  }

  lemma ReduceSizes(p: nat, h: nat, c: nat)
    requires p < 8 * W4 * KEY_LIMIT && h == p % TWO_130 + 4 * (p / TWO_130) && c == 4 * (p / TWO_130) / 4
    ensures h + c < WORD * W4
  {
    assert p / TWO_130 <= 2 * KEY_LIMIT;
  }

  lemma ShiftKeepsAcc(m: Machine, m': Machine)
    requires ShiftsAll(m, m')
    ensures Acc(m') == Acc(m)
  {
  }

  lemma ReduceFitsAgain(m: Machine, m1: Machine, m2: Machine, m3: Machine)
    requires TakesLow(m, m1) && Prod(m) < 8 * W4 * KEY_LIMIT
    requires AddsAcc(m1, m2, Limbs4(m1, 12)) && ShiftsAll(m2, m3)
    ensures Acc(m3) + Limbs4(m3, 12) < WORD * W4
  {
    hide Prod;
    KeepsHigh(m1, m2, Limbs4(m1, 12));
    ShiftKeepsAcc(m2, m3);
    ReduceSizes(Prod(m), Acc(m2), Limbs4(m3, 12));
  }

  lemma KeepsHigh(m1: Machine, m2: Machine, b: nat)
    requires AddsAcc(m1, m2, b)
    ensures Limbs4(m2, 12) == Limbs4(m1, 12)
  {
  }

  lemma ReduceExact(m: Machine)
    requires Prod(m) < 8 * W4 * KEY_LIMIT
    ensures Reduces(m, Run(Reduce(), m))
  {
    hide *;
    ReduceUnfold();
    RunAppend(TakeLow + FoldIn(), ShiftChain(4) + FoldIn(), m);
    RunAppend(TakeLow, FoldIn(), m);
    var m1 := Run(TakeLow, m);
    TakeLowExact(m);
    ReduceFits(m, m1);
    AddHighExact(m1);
    var m2 := Run(FoldIn(), m1);
    RunAppend(ShiftChain(4), FoldIn(), m2);
    KeepsHigh(m1, m2, Limbs4(m1, 12));
    LowWord(m, m1, m2);
    ShiftChainExact(m2);
    var m3 := Run(ShiftChain(4), m2);
    ReduceFitsAgain(m, m1, m2, m3);
    AddHighExact(m3);
    ReduceLink(m, m1, m2, m3, Run(FoldIn(), m3));
  }

  // ----- one block -----

  ghost predicate ReadyForBlock(m: Machine) {
    Val(m, 1) + 16 <= WORD && Val(m, 7) <= 4 && Clamped(m)
  }

  /** m' is m after one block: the lazy Poly1305 step, pointer and count advanced. */
  ghost predicate BlockDone(m: Machine, m': Machine)
    requires Val(m, 1) + 16 <= WORD
  {
    && OnlyRegisters(m, m', 1, 16)
    && Acc(m') == LazyStep(Acc(m), Key(m), MessageWords(m.mem, Val(m, 1)) + W4)
    && Val(m', 7) <= 4
    && Val(m', 1) == (Val(m, 1) + 16) % WORD
    && (Val(m, 2) > 0 ==> Val(m', 2) == Val(m, 2) - 1)
  }

  lemma AdvanceExact(m: Machine)
    ensures Run(Advance(), m)
         == SetReg(SetReg(m, 1, AddWord(m.r[1], 16)), 2, SubWord(m.r[2], 1))
  {
    RunTwo(Addiu(16, 1), Subiu(1, 2), m);
  }

  lemma MultiplyExact(macc: bool, m: Machine)
    requires Clamped(m) && Val(m, 7) <= 7
    ensures Multiplies(m, Run(Multiply(macc), m))
  {
    hide *;
    MultiplyUnfold(macc);
    if macc {
      PolyColumns.MaccExact(m);
    } else {
      RowsExact(m);
    }
  }

  lemma MultiplyUnfold(macc: bool)
    ensures Multiply(macc) == if macc then Columns(8) else Rows(4)
  {
  }

  /** The number spelled by registers k..15. */
  ghost function Digits(m: Machine, k: nat): nat
    requires k <= 16
    decreases 16 - k
  {
    if k == 16 then 0 else Val(m, k) + WORD * Digits(m, k + 1)
  }

  lemma DigitsValue(m: Machine)
    ensures Digits(m, 8) == Prod(m)
  {
    assert Digits(m, 15) == Val(m, 15);
    assert Digits(m, 13) == Val(m, 13) + W1 * Val(m, 14) + W2 * Val(m, 15);
    assert Digits(m, 11) == Val(m, 11) + W1 * Val(m, 12) + W2 * Digits(m, 13);
    assert Digits(m, 9) == Val(m, 9) + W1 * Val(m, 10) + W2 * Digits(m, 11);
  }

  lemma {:induction false} SameDigits(m: Machine, m': Machine, k: nat)
    requires k <= 16 && Digits(m, k) == Digits(m', k)
    ensures forall i :: k <= i < 16 ==> m.r[i] == m'.r[i]
    decreases 16 - k
  {
    if k < 16 {
      ModUnique(Digits(m, k), WORD, Digits(m, k + 1), Val(m, k));
      ModUnique(Digits(m, k), WORD, Digits(m', k + 1), Val(m', k));
      SameDigits(m, m', k + 1);
    }
  }

  /** Both multiplies leave identical words in R8..R15: those of the exact product. */
  lemma VariantsAgree(m: Machine)
    requires Clamped(m) && Val(m, 7) <= 7
    ensures var m1, m2 := Run(Rows(4), m), Run(Columns(8), m);
      Prod(m1) == Mul(Acc(m), Key(m)) && forall k: Reg :: 8 <= k < 16 ==> m1.r[k] == m2.r[k]
  {
    hide Run, Rows, Columns, Acc, Key, Limbs4, Clamped, Digits;
    RowsExact(m);
    PolyColumns.MaccExact(m);
    DigitsValue(Run(Rows(4), m));
    DigitsValue(Run(Columns(8), m));
    SameDigits(Run(Rows(4), m), Run(Columns(8), m), 8);
  }

  lemma AccLimb(m: Machine)
    requires Acc(m) < ACC_LIMIT
    ensures Val(m, 7) <= 4
  {
  }

  lemma KeyBound(m: Machine)
    requires Clamped(m)
    ensures Key(m) < KEY_LIMIT
  {
  }

  lemma AbsorbKeeps(m: Machine, m1: Machine, b: nat)
    requires Absorbs(m, m1, b) && Clamped(m)
    ensures Clamped(m1) && Val(m1, 7) <= 7 && Key(m1) == Key(m) && Acc(m1) == Acc(m) + b + W4
  {
  }

  lemma MultiplyFits(m: Machine, m1: Machine)
    requires Multiplies(m, m1) && Clamped(m) && Val(m, 7) <= 7
    ensures Prod(m1) == Mul(Acc(m), Key(m)) && Prod(m1) < 8 * W4 * KEY_LIMIT
  {
    hide Acc, Key, Limbs4, Clamped;
    PolyColumns.ProductFits(m);
  }

  lemma BlockLink(m: Machine, m1: Machine, m2: Machine, m3: Machine, b: nat)
    requires Val(m, 1) + 16 <= WORD && b == MessageWords(m.mem, Val(m, 1))
    requires Absorbs(m, m1, b) && Multiplies(m1, m2) && Reduces(m2, m3)
    requires Prod(m2) == Mul(Acc(m) + b + W4, Key(m)) && Partial(Prod(m2)) < ACC_LIMIT
    ensures BlockDone(m, SetReg(SetReg(m3, 1, AddWord(m3.r[1], 16)), 2, SubWord(m3.r[2], 1)))
  {
    hide MessageWords, Mul, Prod, Partial, Limbs4;
    AccLimb(m3);
    var m4 := SetReg(SetReg(m3, 1, AddWord(m3.r[1], 16)), 2, SubWord(m3.r[2], 1));
    SameAcc(m3, m4);
    assert m3.r[1] == m.r[1] && m3.r[2] == m.r[2];
  }

  lemma SameAcc(m: Machine, m': Machine)
    requires OnlyRegisters(m, m', 1, 3)
    ensures Acc(m') == Acc(m)
  {
  }

  lemma BlockBodyUnfold(macc: bool)
    ensures BlockBody(macc) == Absorb() + (Multiply(macc) + (Reduce() + Advance()))
  {
  }

  lemma ReadyUnfold(m: Machine)
    requires ReadyForBlock(m)
    ensures Val(m, 1) + 16 <= WORD && Val(m, 7) <= 4 && Clamped(m) && Key(m) < KEY_LIMIT && Acc(m) < ACC_LIMIT
  {
    KeyBound(m);
    AccBound(m);
  }

  lemma BlockStepBound(h: nat, r: nat, b: nat)
    requires h < ACC_LIMIT && r < KEY_LIMIT && b < W4
    ensures Partial(Mul(h + b + W4, r)) < ACC_LIMIT
  {
    hide Mul;
    LazyStepBound(h, r, b + W4);
    assert h + (b + W4) == h + b + W4;
  }

  /** The emitted block, in either variant, is the lazy Poly1305 step. */
  lemma BlockExact(macc: bool, m: Machine)
    requires ReadyForBlock(m)
    ensures BlockDone(m, Run(BlockBody(macc), m))
  {
    hide *;
    ReadyUnfold(m);
    BlockBodyUnfold(macc);
    RunAppend(Absorb(), Multiply(macc) + (Reduce() + Advance()), m);
    var m1 := Run(Absorb(), m);
    RunAppend(Multiply(macc), Reduce() + Advance(), m1);
    var m2 := Run(Multiply(macc), m1);
    RunAppend(Reduce(), Advance(), m2);
    var m3 := Run(Reduce(), m2);
    var b := MessageWords(m.mem, Val(m, 1));
    AbsorbExact(m);
    AbsorbKeeps(m, m1, b);
    MultiplyExact(macc, m1);
    MultiplyFits(m1, m2);
    ReduceExact(m2);
    AdvanceExact(m3);
    MessageWordsBound(m.mem, Val(m, 1));
    BlockStepBound(Acc(m), Key(m), b);
    BlockLink(m, m1, m2, m3, b);
  }

  lemma FourWords(b: seq<Byte>)
    requires |b| == 16
    ensures LittleEndian(b) == LittleEndian(b[..4]) + W1 * LittleEndian(b[4..8]) + W2 * LittleEndian(b[8..12]) + W3 * LittleEndian(b[12..])
  {
    hide LittleEndian, Pow2;
    Pow2Table();
    assert b == b[..4] + (b[4..8] + (b[8..12] + b[12..]));
    LittleEndianSplit(b[..4], b[4..8] + (b[8..12] + b[12..]));
    LittleEndianSplit(b[4..8], b[8..12] + b[12..]);
    LittleEndianSplit(b[8..12], b[12..]);
  }

  /** Message words are the little-endian value of the sixteen bytes. */
  lemma MessageWordsValue(mem: Memory, a: nat)
    requires a + 16 <= WORD
    ensures MessageWords(mem, a) + W4 == BlockNumber(mem[a..a + 16])
  {
    hide LittleEndian, WordOfBytes, Pow2;
    var b := mem[a..a + 16];
    FourWords(b);
    WordValue(b[..4]);
    WordValue(b[4..8]);
    WordValue(b[8..12]);
    WordValue(b[12..]);
    Pow2Table();
    Pow2Add(32, 32);
    Pow2Add(64, 64);
  }

  lemma WordValue(b: seq<Byte>)
    requires |b| == 4
    ensures LittleEndian(b) == WordOfBytes(b[0], b[1], b[2], b[3])
  {
    assert b[1..][1..] == b[2..] && b[2..][1..] == b[3..] && b[3..][1..] == [];
    assert LittleEndian(b[3..]) == b[3];
    assert LittleEndian(b[2..]) == b[2] + 256 * LittleEndian(b[3..]);
  }
}
