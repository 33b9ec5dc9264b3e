/** The Poly1305 block loop emitted for MIPS: the generator, and the meaning of
    what it emits. R1 is the message pointer, R2 the block count, R3..R7 the
    accumulator h, R8..R15 the product and R16..R19 the clamped key r. */
module PolyBlocks {
  import opened Words
  import opened Mips

  const W1 := 0x1_0000_0000
  const W2 := 0x1_0000_0000_0000_0000
  const W3 := 0x1_0000_0000_0000_0000_0000_0000
  const W4 := 0x1_0000_0000_0000_0000_0000_0000_0000_0000

  // ----- emitted code -----

  function AddCarry(dst: Reg, src: Reg): seq<Instr> {
    [Addu(src, dst), Sgtu(src, dst, 25), Addu(24, dst), Sgtu(24, dst, 28), Or(25, 28, 24)]
  }

  /** Add n message words at R1 into R3.. with carry. */
  function LoadChain(n: nat): seq<Instr>
    requires n <= 4
  {
    if n == 0 then []
    else LoadChain(n - 1) + ([Lwl(4 * n - 1, 1, 20), Lwr(4 * n - 4, 1, 20)] + AddCarry(2 + n, 20))
  }

  /** Add R12.. into R3.. with carry, n words. */
  function AddChain(n: nat): seq<Instr>
    requires n <= 4
  {
    if n == 0 then [] else AddChain(n - 1) + AddCarry(2 + n, 11 + n)
  }

  function RowStep(j: nat, i: nat): seq<Instr>
    requires j < 4 && i < 4
  {
    [Multu(16 + j, 3 + i), Mflo(20), Mfhi(21)]
    + (if j != 0 then [Addu(8 + i + j, 20), Sgtu(8 + i + j, 20, 25), Addu(25, 21)] else [])
    + (if i != 0 then [Addu(24, 20), Sgtu(24, 20, 25), Addu(25, 21)] else [])
    + [Move(20, 8 + i + j), Move(21, 24)]
  }

  function RowSteps(j: nat, n: nat): seq<Instr>
    requires j < 4 && n <= 4
  {
    if n == 0 then [] else RowSteps(j, n - 1) + RowStep(j, n - 1)
  }

  function RowTop(j: nat): seq<Instr>
    requires j < 4
  {
    [Multu(16 + j, 7), Mflo(20), Addu(24, 20), Move(20, 12 + j)]
  }

  function Rows(n: nat): seq<Instr>
    requires n <= 4
  {
    if n == 0 then [] else Rows(n - 1) + (RowSteps(n - 1, 4) + RowTop(n - 1))
  }

  function ColumnTerms(c: nat, n: nat): seq<Instr>
    requires c < 8 && n <= 5
  {
    if n == 0 then []
    else ColumnTerms(c, n - 1) + if 0 <= c - (n - 1) < 4 then [Maddu(2 + n, 17 + c - n)] else []
  }

  function Column(c: nat): seq<Instr>
    requires c < 8
  {
    [Mtlo(24), Mthi(0)] + ColumnTerms(c, 5) + [Mflo(8 + c), Mfhi(24)]
  }

  function Columns(n: nat): seq<Instr>
    requires n <= 8
  {
    if n == 0 then [Move(0, 24)] else Columns(n - 1) + Column(n - 1)
  }

  /** Shift R12..R15 right by two bits, first n words. */
  function ShiftChain(n: nat): seq<Instr>
    requires n <= 4
  {
    if n == 0 then []
    else ShiftChain(n - 1) + ([Srl(2, 11 + n)] + if n < 4 then [Sll(30, 12 + n, 20), Or(20, 11 + n, 11 + n)] else [])
  }

  const TakeLow := [Move(8, 3), Move(9, 4), Move(10, 5), Move(11, 6), Andi(3, 12, 7), Andi(WORD - 4, 12, 12)]

  function Absorb(): seq<Instr> {
    [Move(0, 24)] + LoadChain(4) + [Addu(24, 7), Addiu(1, 7)]
  }

  function Multiply(macc: bool): seq<Instr> {
    if macc then Columns(8) else Rows(4)
  }

  function FoldIn(): seq<Instr> {
    [Move(0, 24)] + AddChain(4) + [Addu(24, 7)]
  }

  function Reduce(): seq<Instr> {
    TakeLow + FoldIn() + (ShiftChain(4) + FoldIn())
  }

  function Advance(): seq<Instr> {
    [Addiu(16, 1), Subiu(1, 2)]
  }

  function BlockBody(macc: bool): seq<Instr> {
    Absorb() + (Multiply(macc) + (Reduce() + Advance()))
  }

  // ----- one limb with carry -----

  /** m' is m with b and the carry R24 added to register d, carry out in R24. */
  ghost predicate Adds(m: Machine, m': Machine, d: Reg, b: nat) {
    && OnlyRegisters(m, m', d, d + 1)
    && m'.r[24] <= 1
    && Val(m', d) + WORD * Val(m', 24) == Val(m, d) + b + Val(m, 24)
  }

  lemma AddsKeeps(m: Machine, m': Machine, d: Reg, b: nat, k: Reg)
    requires Adds(m, m', d, b) && k !in {d, 20, 21, 24, 25, 28}
    ensures Val(m', k) == Val(m, k) && Val(m', 24) <= 1 && m'.mem == m.mem
  {
  }

  lemma OrBits(a: nat, b: nat)
    requires a <= 1 && b <= 1
    ensures BitOr(a, b) == Bit(a == 1 || b == 1)
  {
    assert BitOr(a / 2, b / 2) == 0;
  }

  lemma FullAdder(a: Word, b: Word, c: Word)
    requires c <= 1
    ensures var x := AddWord(a, b); var y := AddWord(x, c); var k := WordOr(Carry(b, x), Carry(c, y));
      k <= 1 && (y as nat) + WORD * k == (a as nat) + b + c
  {
    var x := AddWord(a, b);
    var y := AddWord(x, c);
    OrBits(Carry(b, x), Carry(c, y));
    assert (x as nat) + WORD * Carry(b, x) == (a as nat) + b;
    assert (y as nat) + WORD * Carry(c, y) == (x as nat) + c;
  }

  /** The emitted add-with-carry is an exact full adder on words. */
  lemma AddCarryExact(dst: Reg, src: Reg, m: Machine)
    requires dst !in {0, 20, 24, 25, 28} && src !in {24, 25, 28} && dst != src
    requires Val(m, 24) <= 1
    ensures Adds(m, Run(AddCarry(dst, src), m), dst, Val(m, src))
  {
    RunFive(Addu(src, dst), Sgtu(src, dst, 25), Addu(24, dst), Sgtu(24, dst, 28), Or(25, 28, 24), m);
    var x := AddWord(m.r[dst], m.r[src]);
    var y := AddWord(x, m.r[24]);
    var m1 := SetReg(SetReg(m, dst, x), 25, Carry(m.r[src], x));
    assert m1 == Step(Sgtu(src, dst, 25), Step(Addu(src, dst), m));
    var m2 := SetReg(SetReg(m1, dst, y), 28, Carry(m.r[24], y));
    assert m2 == Step(Sgtu(24, dst, 28), Step(Addu(24, dst), m1));
    FullAdder(m.r[dst], m.r[src], m.r[24]);
  }

  function LoadStep(i: nat): seq<Instr>
    requires i < 4
  {
    [Lwl(4 * i + 3, 1, 20), Lwr(4 * i, 1, 20)] + AddCarry(3 + i, 20)
  }

  lemma LoadStepExact(i: nat, m: Machine)
    requires i < 4 && Val(m, 1) + 16 <= WORD && Val(m, 24) <= 1
    ensures Adds(m, Run(LoadStep(i), m), 3 + i, LoadWord(m.mem, Val(m, 1) + 4 * i))
  {
    hide Run, Step, LoadWord;
    var l := [Lwl(4 * i + 3, 1, 20), Lwr(4 * i, 1, 20)];
    RunAppend(l, AddCarry(3 + i, 20), m);
    RunUnalignedLoad(4 * i, 1, 20, m);
    AddCarryExact(3 + i, 20, Run(l, m));
  }

  // ----- four limbs -----

  ghost function Limbs4(m: Machine, k: Reg): nat
    requires k < 29
  {
    Val(m, k) + W1 * Val(m, k + 1) + W2 * Val(m, k + 2) + W3 * Val(m, k + 3)
  }

  /** The accumulator held in R3..R7. */
  ghost function Acc(m: Machine): nat {
    Limbs4(m, 3) + W4 * Val(m, 7)
  }

  ghost predicate AddsLimbs(m: Machine, m': Machine, b: nat) {
    && OnlyRegisters(m, m', 3, 7)
    && m'.r[24] <= 1
    && Limbs4(m', 3) + W4 * Val(m', 24) == Limbs4(m, 3) + b
  }

  lemma AddsFour(m0: Machine, m1: Machine, m2: Machine, m3: Machine, m4: Machine, b0: nat, b1: nat, b2: nat, b3: nat)
    requires Val(m0, 24) == 0
    requires Adds(m0, m1, 3, b0) && Adds(m1, m2, 4, b1) && Adds(m2, m3, 5, b2) && Adds(m3, m4, 6, b3)
    ensures AddsLimbs(m0, m4, b0 + W1 * b1 + W2 * b2 + W3 * b3)
  {
  }

  ghost function MessageWords(mem: Memory, a: nat): nat
    requires a + 16 <= WORD
  {
    LoadWord(mem, a) as nat + W1 * LoadWord(mem, a + 4) + W2 * LoadWord(mem, a + 8) + W3 * LoadWord(mem, a + 12)
  }

  lemma MessageWordsUnfold(mem: Memory, a: nat)
    requires a + 16 <= WORD
    ensures MessageWords(mem, a) == LoadWord(mem, a) as nat + W1 * LoadWord(mem, a + 4) + W2 * LoadWord(mem, a + 8) + W3 * LoadWord(mem, a + 12)
  {
  }

  lemma LoadChainUnfold()
    ensures LoadChain(4) == LoadStep(0) + LoadStep(1) + LoadStep(2) + LoadStep(3)
  {
    assert LoadChain(1) == LoadStep(0);
    assert LoadChain(3) == LoadChain(2) + LoadStep(2);
  }

  lemma LoadChainExact(m: Machine)
    requires Val(m, 1) + 16 <= WORD && Val(m, 24) == 0
    ensures AddsLimbs(m, Run(LoadChain(4), m), MessageWords(m.mem, Val(m, 1)))
  {
    hide *;
    LoadChainUnfold();
    RunAppend4(LoadStep(0), LoadStep(1), LoadStep(2), LoadStep(3), m);
    var a := Val(m, 1);
    var m1 := Run(LoadStep(0), m);
    LoadStepExact(0, m);
    AddsKeeps(m, m1, 3, LoadWord(m.mem, a), 1);
    var m2 := Run(LoadStep(1), m1);
    LoadStepExact(1, m1);
    AddsKeeps(m1, m2, 4, LoadWord(m.mem, a + 4), 1);
    var m3 := Run(LoadStep(2), m2);
    LoadStepExact(2, m2);
    AddsKeeps(m2, m3, 5, LoadWord(m.mem, a + 8), 1);
    LoadStepExact(3, m3);
    AddsFour(m, m1, m2, m3, Run(LoadStep(3), m3),
             LoadWord(m.mem, a), LoadWord(m.mem, a + 4), LoadWord(m.mem, a + 8), LoadWord(m.mem, a + 12));
    MessageWordsUnfold(m.mem, a);
  }

  lemma AddChainUnfold()
    ensures AddChain(4) == AddCarry(3, 12) + AddCarry(4, 13) + AddCarry(5, 14) + AddCarry(6, 15)
  {
    assert AddChain(1) == AddCarry(3, 12);
    assert AddChain(3) == AddChain(2) + AddCarry(5, 14);
  }

  lemma Limbs4Unfold(m: Machine, k: Reg)
    requires k < 29
    ensures Limbs4(m, k) == Val(m, k) + W1 * Val(m, k + 1) + W2 * Val(m, k + 2) + W3 * Val(m, k + 3)
  {
  }

  lemma AddChainExact(m: Machine)
    requires Val(m, 24) == 0
    ensures AddsLimbs(m, Run(AddChain(4), m), Limbs4(m, 12))
  {
    hide *;
    AddChainUnfold();
    RunAppend4(AddCarry(3, 12), AddCarry(4, 13), AddCarry(5, 14), AddCarry(6, 15), m);
    var m1 := Run(AddCarry(3, 12), m);
    AddCarryExact(3, 12, m);
    AddsKeeps(m, m1, 3, Val(m, 12), 13);
    AddsKeeps(m, m1, 3, Val(m, 12), 14);
    AddsKeeps(m, m1, 3, Val(m, 12), 15);
    var m2 := Run(AddCarry(4, 13), m1);
    AddCarryExact(4, 13, m1);
    AddsKeeps(m1, m2, 4, Val(m, 13), 14);
    AddsKeeps(m1, m2, 4, Val(m, 13), 15);
    var m3 := Run(AddCarry(5, 14), m2);
    AddCarryExact(5, 14, m2);
    AddsKeeps(m2, m3, 5, Val(m, 14), 15);
    AddCarryExact(6, 15, m3);
    AddsFour(m, m1, m2, m3, Run(AddCarry(6, 15), m3), Val(m, 12), Val(m, 13), Val(m, 14), Val(m, 15));
    Limbs4Unfold(m, 12);
  }

  // ----- absorbing and folding into R7 -----

  ghost predicate AddsAcc(m: Machine, m': Machine, b: nat) {
    && OnlyRegisters(m, m', 3, 8)
    && Acc(m') == Acc(m) + b
  }

  lemma FoldCarry(m: Machine, m1: Machine, b: nat)
    requires AddsLimbs(SetReg(m, 24, 0), m1, b) && Acc(m) + b < WORD * W4
    ensures AddsAcc(m, SetReg(m1, 7, AddWord(m1.r[7], m1.r[24])), b)
  {
    assert Val(m1, 7) + Val(m1, 24) < WORD;
  }

  lemma ClearCarry(m: Machine)
    ensures Val(SetReg(m, 24, 0), 24) == 0 && Val(SetReg(m, 24, 0), 1) == Val(m, 1)
    ensures Limbs4(SetReg(m, 24, 0), 12) == Limbs4(m, 12) && SetReg(m, 24, 0).mem == m.mem
  {
  }

  lemma FoldInUnfold()
    ensures FoldIn() == [Move(0, 24)] + AddChain(4) + [Addu(24, 7)]
  {
  }

  /** R3..R7 plus R12..R15, exact when R7 cannot overflow. */
  lemma AddHighExact(m: Machine)
    requires Acc(m) + Limbs4(m, 12) < WORD * W4
    ensures AddsAcc(m, Run(FoldIn(), m), Limbs4(m, 12))
  {
    hide *;
    FoldInUnfold();
    RunAppend([Move(0, 24)] + AddChain(4), [Addu(24, 7)], m);
    RunAppend([Move(0, 24)], AddChain(4), m);
    StepMove(0, 24, m);
    var m0 := SetReg(m, 24, 0);
    ClearCarry(m);
    AddChainExact(m0);
    var m1 := Run(AddChain(4), m0);
    StepAddu(24, 7, m1);
    FoldCarry(m, m1, Limbs4(m, 12));
  }

  ghost predicate Absorbs(m: Machine, m': Machine, b: nat) {
    && OnlyRegisters(m, m', 3, 8)
    && Acc(m') == Acc(m) + b + W4
    && Val(m', 7) <= 6
  }

  lemma AddTopBit(m: Machine, m1: Machine, b: nat)
    requires AddsAcc(m, m1, b) && Val(m, 7) <= 4 && b < W4
    ensures Absorbs(m, SetReg(m1, 7, AddWord(m1.r[7], 1)), b)
  {
    hide Limbs4;
    AccBound(m);
    assert W4 * Val(m1, 7) < 6 * W4;
    assert Val(m1, 7) <= 5;
    var m' := SetReg(m1, 7, AddWord(m1.r[7], 1));
    SameLow(m1, m');
  }

  lemma SameLow(m: Machine, m': Machine)
    requires OnlyRegisters(m, m', 7, 8)
    ensures Limbs4(m', 3) == Limbs4(m, 3)
  {
  }

  lemma MessageWordsBound(mem: Memory, a: nat)
    requires a + 16 <= WORD
    ensures MessageWords(mem, a) < W4
  {
    hide LoadWord;
  }

  lemma AccBound(m: Machine)
    requires Val(m, 7) <= 4
    ensures Acc(m) < 5 * W4
  {
  }

  /** Absorbing a block adds it, with its 2^128 bit, to the accumulator. */
  lemma AbsorbExact(m: Machine)
    requires Val(m, 1) + 16 <= WORD && Val(m, 7) <= 4
    ensures Absorbs(m, Run(Absorb(), m), MessageWords(m.mem, Val(m, 1)))
  {
    hide *;
    var b := MessageWords(m.mem, Val(m, 1));
    var m1 := Run(LoadChain(4), SetReg(m, 24, 0));
    AbsorbSteps(m);
    AbsorbLoads(m, m1, b);
    MessageWordsBound(m.mem, Val(m, 1));
    AddTopBit(m, SetReg(m1, 7, AddWord(m1.r[7], m1.r[24])), b);
  }

  lemma AbsorbLoads(m: Machine, m1: Machine, b: nat)
    requires Val(m, 1) + 16 <= WORD && Val(m, 7) <= 4
    requires m1 == Run(LoadChain(4), SetReg(m, 24, 0)) && b == MessageWords(m.mem, Val(m, 1))
    ensures AddsAcc(m, SetReg(m1, 7, AddWord(m1.r[7], m1.r[24])), b)
  {
    hide *;
    ClearCarry(m);
    LoadChainExact(SetReg(m, 24, 0));
    MessageWordsBound(m.mem, Val(m, 1));
    AccBound(m);
    SmallSum(Acc(m), b);
    FoldCarry(m, m1, b);
  }

  lemma SmallSum(a: nat, b: nat)
    requires a < 5 * W4 && b < W4
    ensures a + b < WORD * W4
  {
  }

  lemma AbsorbSteps(m: Machine)
    ensures var m1 := Run(LoadChain(4), SetReg(m, 24, 0));
      var m2 := SetReg(m1, 7, AddWord(m1.r[7], m1.r[24]));
      Run(Absorb(), m) == SetReg(m2, 7, AddWord(m2.r[7], 1))
  {
    hide Run, Step, Absorb, LoadChain, AddWord, SetReg;
    AbsorbUnfold();
    RunAppend4([Move(0, 24)], LoadChain(4), [Addu(24, 7)], [Addiu(1, 7)], m);
    StepMove(0, 24, m);
    ZeroRegister(m);
    var m1 := Run(LoadChain(4), SetReg(m, 24, 0));
    StepAddu(24, 7, m1);
    StepAddiu(1, 7, SetReg(m1, 7, AddWord(m1.r[7], m1.r[24])));
  }

  lemma AbsorbUnfold()
    ensures Absorb() == [Move(0, 24)] + LoadChain(4) + [Addu(24, 7)] + [Addiu(1, 7)]
  {
    assert [Addu(24, 7), Addiu(1, 7)] == [Addu(24, 7)] + [Addiu(1, 7)];
  }
}
