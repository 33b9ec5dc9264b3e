/** A word-level semantics for the little-endian MIPS32r2 instructions that the
    crypto generators emit, in the operand order of the Go assembler. */
module Mips {
  import opened Words

  type Reg = r: nat | r < 32
  type Registers = s: seq<Word> | |s| == 32 && s[0] == 0 witness seq(32, _ => 0)
  type Memory = s: seq<Byte> | |s| == WORD witness seq(WORD, _ => 0)

  datatype Instr =
    | Addu(src: Reg, dst: Reg)              // dst := dst + src, mod 2^32
    | Addiu(imm: Word, dst: Reg)            // dst := dst + imm, mod 2^32
    | Subiu(imm: Word, dst: Reg)            // dst := dst - imm, mod 2^32
    | Sgtu(a: Reg, b: Reg, dst: Reg)        // dst := 1 if a > b else 0
    | Multu(a: Reg, b: Reg)                 // HI:LO := a * b
    | Maddu(a: Reg, b: Reg)                 // HI:LO := HI:LO + a * b, mod 2^64
    | Mflo(dst: Reg) | Mfhi(dst: Reg)
    | Mtlo(src: Reg) | Mthi(src: Reg)
    | Move(src: Reg, dst: Reg)
    | Li(imm: Word, dst: Reg)
    | Or(a: Reg, b: Reg, dst: Reg)
    | Xor(src: Reg, dst: Reg)               // dst := dst xor src
    | Andi(imm: Word, src: Reg, dst: Reg)
    | Srl(shift: nat, dst: Reg)
    | Sll(shift: nat, src: Reg, dst: Reg)
    | Rotr(shift: nat, dst: Reg)
    | Lw(off: Word, base: Reg, dst: Reg)    // aligned word load
    | Sw(src: Reg, off: Word, base: Reg)    // aligned word store
    | Lwl(off: Word, base: Reg, dst: Reg) | Lwr(off: Word, base: Reg, dst: Reg)
    | Swl(src: Reg, off: Word, base: Reg) | Swr(src: Reg, off: Word, base: Reg)
    | Larg(slot: nat, dst: Reg)             // load a word of the call frame
    | Sres(src: Reg, slot: nat)             // store a word of the call frame

  /** "faulted" records an aligned access to an unaligned address, which traps. */
  datatype Machine = Machine(r: Registers, hi: Word, lo: Word, mem: Memory, frame: seq<Word>, faulted: bool)

  /** The value of a register as a number. */
  function Val(m: Machine, k: Reg): nat {
    m.r[k]
  }

  function Set(r: Registers, k: Reg, v: Word): Registers {
    if k == 0 then r else r[k := v]
  }

  function SetReg(m: Machine, k: Reg, v: Word): Machine {
    m.(r := Set(m.r, k, v))
  }

  function Address(m: Machine, base: Reg, off: Word): Word {
    (m.r[base] + off) % WORD
  }

  /** The aligned word that holds address a. */
  function Base(a: Word): (b: Word)
    ensures b % 4 == 0 && b <= a < b + 4 <= WORD
  {
    a - a % 4
  }

  function LoadWord(mem: Memory, a: nat): Word
    requires a + 4 <= WORD
  {
    WordOfBytes(mem[a], mem[a + 1], mem[a + 2], mem[a + 3])
  }

  function StoreWord(mem: Memory, a: nat, w: Word): Memory
    requires a + 4 <= WORD
  {
    mem[a := ByteOfWord(w, 0)][a + 1 := ByteOfWord(w, 1)][a + 2 := ByteOfWord(w, 2)][a + 3 := ByteOfWord(w, 3)]
  }

  /** High part h above the low part l; d values fit below, e above. */
  function Join(d: nat, e: nat, h: nat, l: nat): (w: Word)
    requires d * e == WORD && h < e && l < d
    ensures w / d == h && w % d == l
  {
    JoinFits(d, e, h, l);
    h * d + l
  }

  lemma JoinFits(d: nat, e: nat, h: nat, l: nat)
    requires d * e == WORD && h < e && l < d
    ensures 0 <= h * d + l < WORD && (h * d + l) / d == h && (h * d + l) % d == l
  {
    MulMonotone(h + 1, e, d);
    MulMonotone(0, h, d);
    assert (h + 1) * d == h * d + d;
    assert e * d == d * e;
    ModUnique(h * d + l, d, h, l);
  }

  /** The part of a word above d values. */
  function Above(d: nat, e: nat, w: Word): (h: nat)
    requires d * e == WORD && d > 0
    ensures h == w / d && h < e
  {
    AboveFits(d, e, w);
    w / d
  }

  lemma AboveFits(d: nat, e: nat, w: Word)
    requires d * e == WORD && d > 0
    ensures 0 <= w / d < e
  {
    assert w as int == w / d * d + w % d;
    assert e * d == WORD;
    if w / d >= e {
      MulMonotone(e, w / d, d);
    }
  }

  function Two(b0: Byte, b1: Byte): nat {
    b0 + 0x100 * b1
  }

  function Three(b0: Byte, b1: Byte, b2: Byte): nat {
    b0 + 0x100 * b1 + 0x1_0000 * b2
  }

  /** LWL: bytes from the start of the aligned word up to a go to the top of w. */
  function LoadLeft(mem: Memory, a: Word, w: Word): Word {
    var b := Base(a);
    if a == b then Join(0x100_0000, 0x100, mem[b], w % 0x100_0000)
    else if a == b + 1 then Join(0x1_0000, 0x1_0000, Two(mem[b], mem[b + 1]), w % 0x1_0000)
    else if a == b + 2 then Join(0x100, 0x100_0000, Three(mem[b], mem[b + 1], mem[b + 2]), w % 0x100)
    else LoadWord(mem, b)
  }

  /** LWR: bytes from a to the end of the aligned word go to the bottom of w. */
  function LoadRight(mem: Memory, a: Word, w: Word): Word {
    var b := Base(a);
    if a == b then LoadWord(mem, b)
    else if a == b + 1 then Join(0x100_0000, 0x100, Above(0x100_0000, 0x100, w), Three(mem[a], mem[a + 1], mem[a + 2]))
    else if a == b + 2 then Join(0x1_0000, 0x1_0000, Above(0x1_0000, 0x1_0000, w), Two(mem[a], mem[a + 1]))
    else Join(0x100, 0x100_0000, Above(0x100, 0x100_0000, w), mem[a])
  }

  /** SWL: the top bytes of w go to the aligned word's start, up to a. */
  function StoreLeft(mem: Memory, a: Word, w: Word): Memory {
    var b := Base(a);
    match a % 4
    case 0 => mem[b := ByteOfWord(w, 3)]
    case 1 => mem[b := ByteOfWord(w, 2)][b + 1 := ByteOfWord(w, 3)]
    case 2 => mem[b := ByteOfWord(w, 1)][b + 1 := ByteOfWord(w, 2)][b + 2 := ByteOfWord(w, 3)]
    case _ => StoreWord(mem, b, w)
  }

  /** SWR: the bottom bytes of w go to a, up to the aligned word's end. */
  function StoreRight(mem: Memory, a: Word, w: Word): Memory {
    var b := Base(a);
    match a % 4
    case 0 => StoreWord(mem, b, w)
    case 1 => mem[b + 1 := ByteOfWord(w, 0)][b + 2 := ByteOfWord(w, 1)][b + 3 := ByteOfWord(w, 2)]
    case 2 => mem[b + 2 := ByteOfWord(w, 0)][b + 3 := ByteOfWord(w, 1)]
    case _ => mem[b + 3 := ByteOfWord(w, 0)]
  }

  function Step(i: Instr, m: Machine): Machine {
    match i
    case Addu(a, d) => SetReg(m, d, AddWord(m.r[d], m.r[a]))
    case Addiu(n, d) => SetReg(m, d, AddWord(m.r[d], n))
    case Subiu(n, d) => SetReg(m, d, SubWord(m.r[d], n))
    case Sgtu(a, b, d) => SetReg(m, d, Carry(m.r[a], m.r[b]))
    case Multu(a, b) => SetProduct(m, Product(m.r[a], m.r[b]))
    case Maddu(a, b) => SetProduct(m, m.hi * WORD + m.lo + Product(m.r[a], m.r[b]))
    case Mflo(d) => SetReg(m, d, m.lo)
    case Mfhi(d) => SetReg(m, d, m.hi)
    case Mtlo(a) => m.(lo := m.r[a])
    case Mthi(a) => m.(hi := m.r[a])
    case Move(a, d) => SetReg(m, d, m.r[a])
    case Li(n, d) => SetReg(m, d, n)
    case Or(a, b, d) => SetReg(m, d, WordOr(m.r[a], m.r[b]))
    case Xor(a, d) => SetReg(m, d, WordXor(m.r[d], m.r[a]))
    case Andi(n, a, d) => SetReg(m, d, WordAnd(n, m.r[a]))
    case Srl(k, d) => SetReg(m, d, ShiftRight(k, m.r[d]))
    case Sll(k, a, d) => SetReg(m, d, ShiftLeft(k, m.r[a]))
    case Rotr(k, d) => if 0 < k < 32 then SetReg(m, d, RotateRight(k, m.r[d])) else m
    case Lw(o, b, d) =>
      var a := Address(m, b, o);
      Faulting(SetReg(m, d, LoadWord(m.mem, Base(a))), a)
    case Sw(s, o, b) =>
      var a := Address(m, b, o);
      Faulting(m.(mem := StoreWord(m.mem, Base(a), m.r[s])), a)
    case Lwl(o, b, d) => SetReg(m, d, LoadLeft(m.mem, Address(m, b, o), m.r[d]))
    case Lwr(o, b, d) => SetReg(m, d, LoadRight(m.mem, Address(m, b, o), m.r[d]))
    case Swl(s, o, b) => m.(mem := StoreLeft(m.mem, Address(m, b, o), m.r[s]))
    case Swr(s, o, b) => m.(mem := StoreRight(m.mem, Address(m, b, o), m.r[s]))
    case Larg(k, d) => SetReg(m, d, if k < |m.frame| then m.frame[k] else 0)
    case Sres(s, k) => if k < |m.frame| then m.(frame := m.frame[k := m.r[s]]) else m
  }

  function ShiftRight(k: nat, w: Word): Word {
    Quotient(w, Pow2(k))
  }

  function ShiftLeft(k: nat, w: Word): Word {
    Product(w, Pow2(k)) % WORD
  }

  function Carry(a: Word, b: Word): Word {
    Bit(a > b)
  }

  function AddWord(a: Word, b: Word): Word {
    (a + b) % WORD
  }

  function SubWord(a: Word, b: Word): Word {
    (a + WORD - b) % WORD
  }

  function Product(a: nat, b: nat): nat {
    a * b
  }

  function Faulting(m: Machine, a: Word): Machine {
    m.(faulted := m.faulted || a % 4 != 0)
  }

  function SetProduct(m: Machine, p: nat): Machine {
    m.(hi := p / WORD % WORD, lo := p % WORD)
  }

  /** Execute straight-line code. */
  function Run(p: seq<Instr>, m: Machine): Machine {
    if p == [] then m else Run(p[1..], Step(p[0], m))
  }

  lemma {:induction false} RunAppend(p: seq<Instr>, q: seq<Instr>, m: Machine)
    ensures Run(p + q, m) == Run(q, Run(p, m))
  {
    if p == [] {
      assert p + q == q;
    } else {
      assert (p + q)[1..] == p[1..] + q;
      RunAppend(p[1..], q, Step(p[0], m));
    }
  }

  lemma RunOne(a: Instr, m: Machine)
    ensures Run([a], m) == Step(a, m)
  {
    assert [a][1..] == [];
  }

  lemma RunTwo(a: Instr, b: Instr, m: Machine)
    ensures Run([a, b], m) == Step(b, Step(a, m))
  {
    assert [a, b][1..] == [b];
    RunOne(b, Step(a, m));
  }

  lemma RunThree(a: Instr, b: Instr, c: Instr, m: Machine)
    ensures Run([a, b, c], m) == Step(c, Step(b, Step(a, m)))
  {
    assert [a, b, c][1..] == [b, c];
    RunTwo(b, c, Step(a, m));
  }

  /** m and m' agree except on registers lo up to hi, on the scratch registers
      20, 21, 24, 25 and 28, and on HI:LO. */
  ghost predicate OnlyRegisters(m: Machine, m': Machine, lo: nat, hi: nat) {
    && (forall k: Reg :: !(lo <= k < hi) && k != 20 && k != 21 && k != 24 && k != 25 && k != 28 ==> m'.r[k] == m.r[k])
    && m'.mem == m.mem && m'.frame == m.frame && m'.faulted == m.faulted
  }

  /** Joined bytes are the word they spell. */
  lemma JoinOne(b0: Byte, b1: Byte, b2: Byte, b3: Byte)
    ensures Join(0x100_0000, 0x100, b3, Three(b0, b1, b2)) == WordOfBytes(b0, b1, b2, b3)
  {
  }

  lemma JoinTwo(b0: Byte, b1: Byte, b2: Byte, b3: Byte)
    ensures Join(0x1_0000, 0x1_0000, Two(b2, b3), Two(b0, b1)) == WordOfBytes(b0, b1, b2, b3)
  {
  }

  lemma JoinThree(b0: Byte, b1: Byte, b2: Byte, b3: Byte)
    ensures Join(0x100, 0x100_0000, Three(b1, b2, b3), b0) == WordOfBytes(b0, b1, b2, b3)
  {
  }

  lemma BaseOf(c: nat, k: nat)
    requires c % 4 == 0 && k < 4 && c + 4 <= WORD
    ensures Base(c + k) == c
  {
  }

  lemma LoadAtOne(mem: Memory, c: nat, w: Word)
    requires c % 4 == 0 && c + 8 <= WORD
    ensures LoadRight(mem, c + 1, LoadLeft(mem, c + 4, w)) == LoadWord(mem, c + 1)
  {
    hide Base, Join, Above, WordOfBytes, Three, Two;
    BaseOf(c, 1);
    BaseOf(c + 4, 0);
    JoinOne(mem[c + 1], mem[c + 2], mem[c + 3], mem[c + 4]);
  }

  lemma LoadAtTwo(mem: Memory, c: nat, w: Word)
    requires c % 4 == 0 && c + 8 <= WORD
    ensures LoadRight(mem, c + 2, LoadLeft(mem, c + 5, w)) == LoadWord(mem, c + 2)
  {
    hide Base, Join, Above, WordOfBytes, Three, Two;
    BaseOf(c, 2);
    BaseOf(c + 4, 1);
    JoinTwo(mem[c + 2], mem[c + 3], mem[c + 4], mem[c + 5]);
  }

  lemma LoadAtThree(mem: Memory, c: nat, w: Word)
    requires c % 4 == 0 && c + 8 <= WORD
    ensures LoadRight(mem, c + 3, LoadLeft(mem, c + 6, w)) == LoadWord(mem, c + 3)
  {
    hide Base, Join, Above, WordOfBytes, Three, Two;
    BaseOf(c, 3);
    BaseOf(c + 4, 2);
    JoinThree(mem[c + 3], mem[c + 4], mem[c + 5], mem[c + 6]);
  }

  /** The LWL/LWR pair reads an unaligned little-endian word at any alignment. */
  lemma UnalignedLoad(mem: Memory, a: Word, w: Word)
    requires a + 4 <= WORD
    ensures LoadRight(mem, a, LoadLeft(mem, a + 3, w)) == LoadWord(mem, a)
  {
    var c := Base(a);
    if a == c + 1 {
      LoadAtOne(mem, c, w);
    } else if a == c + 2 {
      LoadAtTwo(mem, c, w);
    } else if a == c + 3 {
      LoadAtThree(mem, c, w);
    }
  }

  /** The SWL/SWR pair writes an unaligned little-endian word at any alignment. */
  lemma UnalignedStore(mem: Memory, a: Word, w: Word)
    requires a + 4 <= WORD
    ensures StoreRight(StoreLeft(mem, a + 3, w), a, w) == StoreWord(mem, a, w)
  {
    assert a % 4 == 0 ==> Base(a + 3) == a;
    assert a % 4 != 0 ==> Base(a + 3) == Base(a) + 4;
  }

  // ----- derived facts -----

  lemma RunFive(a: Instr, b: Instr, c: Instr, d: Instr, e: Instr, m: Machine)
    ensures Run([a, b, c, d, e], m) == Step(e, Step(d, Step(c, Step(b, Step(a, m)))))
  {
    hide Run, Step;
    assert [a, b, c, d, e] == [a, b, c] + [d, e];
    RunAppend([a, b, c], [d, e], m);
    RunThree(a, b, c, m);
    RunTwo(d, e, Step(c, Step(b, Step(a, m))));
  }

  lemma RunAppend4(p: seq<Instr>, q: seq<Instr>, s: seq<Instr>, t: seq<Instr>, m: Machine)
    ensures Run(p + q + s + t, m) == Run(t, Run(s, Run(q, Run(p, m))))
  {
    hide Run;
    RunAppend(p + q + s, t, m);
    RunAppend(p + q, s, m);
    RunAppend(p, q, m);
  }

  lemma ZeroRegister(m: Machine)
    ensures m.r[0] == 0
  {
  }

  lemma StepMove(a: Reg, d: Reg, m: Machine)
    ensures Run([Move(a, d)], m) == SetReg(m, d, m.r[a])
  {
    RunOne(Move(a, d), m);
  }

  lemma StepAddu(a: Reg, d: Reg, m: Machine)
    ensures Run([Addu(a, d)], m) == SetReg(m, d, AddWord(m.r[d], m.r[a]))
  {
    RunOne(Addu(a, d), m);
  }

  lemma StepAddiu(n: Word, d: Reg, m: Machine)
    ensures Run([Addiu(n, d)], m) == SetReg(m, d, AddWord(m.r[d], n))
  {
    RunOne(Addiu(n, d), m);
  }

  function WordAt(mem: Memory, a: nat): nat
    requires a + 4 <= WORD
  {
    LoadWord(mem, a)
  }

  lemma LoadStored(mem: Memory, a: nat, w: Word)
    requires a + 4 <= WORD
    ensures LoadWord(StoreWord(mem, a, w), a) == w
  {
    hide WordOfBytes, ByteOfWord;
    WordBytesRoundTrip(w);
  }

  lemma LoadElsewhere(mem: Memory, mem': Memory, b: nat)
    requires b + 4 <= WORD && (forall i :: b <= i < b + 4 ==> mem'[i] == mem[i])
    ensures LoadWord(mem', b) == LoadWord(mem, b)
  {
  }

  lemma StoreFrame(mem: Memory, a: nat, w: Word)
    requires a + 4 <= WORD
    ensures forall i :: 0 <= i < WORD && !(a <= i < a + 4) ==> StoreWord(mem, a, w)[i] == mem[i]
  {
    hide ByteOfWord;
  }

  lemma StepLw(o: Word, b: Reg, d: Reg, m: Machine)
    ensures Step(Lw(o, b, d), m) == Faulting(SetReg(m, d, LoadWord(m.mem, Base(Address(m, b, o)))), Address(m, b, o))
  {
    hide LoadWord, Base, Address, Faulting;
  }

  lemma StepSw(s: Reg, o: Word, b: Reg, m: Machine)
    ensures Step(Sw(s, o, b), m) == Faulting(m.(mem := StoreWord(m.mem, Base(Address(m, b, o)), m.r[s])), Address(m, b, o))
  {
    hide StoreWord, Base, Address, Faulting;
  }

  lemma InRange(o: nat, b: Reg, m: Machine)
    requires Val(m, b) + o + 4 <= WORD
    ensures Address(m, b, o) == Val(m, b) + o
  {
  }

  lemma AlignedBase(a: Word)
    requires a % 4 == 0
    ensures Base(a) == a
  {
  }

  lemma RunLw(o: nat, b: Reg, d: Reg, m: Machine)
    requires Val(m, b) % 4 == 0 && o % 4 == 0 && Val(m, b) + o + 4 <= WORD
    ensures Run([Lw(o, b, d)], m) == SetReg(m, d, LoadWord(m.mem, Val(m, b) + o))
  {
    hide Run, Step, LoadWord, Address, Base;
    RunOne(Lw(o, b, d), m);
    StepLw(o, b, d, m);
    InRange(o, b, m);
    AlignedBase(Val(m, b) + o);
  }

  lemma RunSw(s: Reg, o: nat, b: Reg, m: Machine)
    requires Val(m, b) % 4 == 0 && o % 4 == 0 && Val(m, b) + o + 4 <= WORD
    ensures Run([Sw(s, o, b)], m) == m.(mem := StoreWord(m.mem, Val(m, b) + o, m.r[s]))
  {
    hide Run, Step, StoreWord, Address, Base;
    RunOne(Sw(s, o, b), m);
    StepSw(s, o, b, m);
    InRange(o, b, m);
    var a := Val(m, b) + o;
    AlignedBase(a);
    assert Faulting(m.(mem := StoreWord(m.mem, a, m.r[s])), a) == m.(mem := StoreWord(m.mem, a, m.r[s]));
  }

  lemma StepLwl(o: Word, b: Reg, d: Reg, m: Machine)
    ensures Step(Lwl(o, b, d), m) == SetReg(m, d, LoadLeft(m.mem, Address(m, b, o), m.r[d]))
  {
    hide LoadLeft, Address;
  }

  lemma StepLwr(o: Word, b: Reg, d: Reg, m: Machine)
    ensures Step(Lwr(o, b, d), m) == SetReg(m, d, LoadRight(m.mem, Address(m, b, o), m.r[d]))
  {
    hide LoadRight, Address;
  }

  /** The emitted unaligned load, at any alignment. */
  lemma RunUnalignedLoad(o: nat, b: Reg, d: Reg, m: Machine)
    requires Val(m, b) + o + 4 <= WORD && b != d && d != 0
    ensures Run([Lwl(o + 3, b, d), Lwr(o, b, d)], m) == SetReg(m, d, LoadWord(m.mem, Val(m, b) + o))
  {
    hide Run, Step, LoadLeft, LoadRight, LoadWord, Address;
    RunTwo(Lwl(o + 3, b, d), Lwr(o, b, d), m);
    StepLwl(o + 3, b, d, m);
    FarAddress(o, b, m);
    var m1 := SetReg(m, d, LoadLeft(m.mem, Val(m, b) + o + 3, m.r[d]));
    StepLwr(o, b, d, m1);
    InRange(o, b, m1);
    UnalignedLoad(m.mem, Val(m, b) + o, m.r[d]);
  }

  lemma FarAddress(o: nat, b: Reg, m: Machine)
    requires Val(m, b) + o + 4 <= WORD
    ensures Address(m, b, o + 3) == Val(m, b) + o + 3
  {
  }

  lemma StepSwl(s: Reg, o: Word, b: Reg, m: Machine)
    ensures Step(Swl(s, o, b), m) == m.(mem := StoreLeft(m.mem, Address(m, b, o), m.r[s]))
  {
    hide StoreLeft, Address;
  }

  lemma StepSwr(s: Reg, o: Word, b: Reg, m: Machine)
    ensures Step(Swr(s, o, b), m) == m.(mem := StoreRight(m.mem, Address(m, b, o), m.r[s]))
  {
    hide StoreRight, Address;
  }

  /** The emitted unaligned store, at any alignment. */
  lemma RunUnalignedStore(s: Reg, o: nat, b: Reg, m: Machine)
    requires Val(m, b) + o + 4 <= WORD
    ensures Run([Swl(s, o + 3, b), Swr(s, o, b)], m) == m.(mem := StoreWord(m.mem, Val(m, b) + o, m.r[s]))
  {
    hide Run, Step, StoreLeft, StoreRight, StoreWord, Address;
    RunTwo(Swl(s, o + 3, b), Swr(s, o, b), m);
    StepSwl(s, o + 3, b, m);
    FarAddress(o, b, m);
    var m1 := m.(mem := StoreLeft(m.mem, Val(m, b) + o + 3, m.r[s]));
    StepSwr(s, o, b, m1);
    InRange(o, b, m1);
    UnalignedStore(m.mem, Val(m, b) + o, m.r[s]);
  }

  lemma RunNothing(m: Machine)
    ensures Run([], m) == m
  {
  }
}
