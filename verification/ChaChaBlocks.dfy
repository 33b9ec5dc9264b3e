/** The emitted batch routine: R1..R16 hold the state, R17 points at the input
    state, R18 and R19 at destination and source, R24 counts blocks down and R25
    is the block counter. */
module ChaChaBlocks {
  import opened Words
  import opened Mips
  import opened ChaCha20

  // ----- emitted code -----

  function StepInstr(s: StepOp, p: Places): Instr
    requires Proper(p)
  {
    match s
    case Add(x, y) => Addu(Index(p, x) + 1, Index(p, y) + 1)
    case Exc(x, y) => Xor(Index(p, x) + 1, Index(p, y) + 1)
    case Rot(y, k) => Rotr(k, Index(p, y) + 1)
  }

  function StepCode(s: StepOp, g: Group): seq<Instr>
    requires ProperGroup(g)
  {
    [StepInstr(s, g.w)] + [StepInstr(s, g.x)] + [StepInstr(s, g.y)] + [StepInstr(s, g.z)]
  }

  function GroupCode(g: Group, n: nat): seq<Instr>
    requires n <= 12 && ProperGroup(g)
  {
    if n == 0 then [] else GroupCode(g, n - 1) + StepCode(STEPS[n - 1], g)
  }

  function RoundCode(): seq<Instr> {
    GroupCode(COLUMNS, 12) + GroupCode(DIAGONALS, 12) + [Subiu(1, 20)]
  }

  function LoadCode(n: nat): seq<Instr>
    requires n <= 16
  {
    if n == 0 then [] else LoadCode(n - 1) + [if n == 13 then Move(25, 13) else Lw(4 * n - 4, 17, n)]
  }

  function WordCode(i: nat, aligned: bool): seq<Instr>
    requires i < 16
  {
    if aligned then
      [if i == 12 then Move(25, 20) else Lw(4 * i, 17, 20)] + [Lw(4 * i, 19, 21)]
      + [Addu(20, i + 1), Xor(i + 1, 21)] + [Sw(21, 4 * i, 18)]
    else
      [if i == 12 then Move(25, 21) else Lw(4 * i, 17, 21)] + [Addu(21, i + 1)]
      + [Lwl(4 * i + 3, 19, 21), Lwr(4 * i, 19, 21)] + [Xor(i + 1, 21)] + [Swl(21, 4 * i + 3, 18), Swr(21, 4 * i, 18)]
  }

  function OutputCode(n: nat, aligned: bool): seq<Instr>
    requires n <= 16
  {
    if n == 0 then [] else OutputCode(n - 1, aligned) + WordCode(n - 1, aligned)
  }

  function NextCode(): seq<Instr> {
    [Addiu(64, 18), Addiu(64, 19)] + [Addiu(1, 25), Subiu(1, 24)]
  }

  // ----- the state registers -----

  ghost function Vec(m: Machine): State {
    m.r[1..17]
  }

  /** m' is m with the state registers holding v. */
  ghost predicate SetsVec(m: Machine, m': Machine, v: State) {
    && Vec(m') == v
    && (forall k: Reg :: k == 0 || k > 16 ==> m'.r[k] == m.r[k])
    && m'.mem == m.mem && m'.frame == m.frame && m'.faulted == m.faulted
  }

  lemma ReadPlace(p: Places, l: Place, m: Machine)
    requires Proper(p)
    ensures Index(p, l) < 16 && Pick(Get(Vec(m), p), l) == m.r[Index(p, l) + 1]
  {
  }

  lemma WriteState(m: Machine, i: nat, v: Word)
    requires i < 16
    ensures SetsVec(m, SetReg(m, i + 1, v), Vec(m)[i := v])
  {
    assert Vec(SetReg(m, i + 1, v)) == Vec(m)[i := v];
  }

  lemma StepInstrExact(s: StepOp, p: Places, m: Machine)
    requires ProperStep(s) && Proper(p)
    ensures SetsVec(m, Run([StepInstr(s, p)], m), ApplyAt(s, Vec(m), p))
  {
    hide AddWord, WordXor, RotateRight, Run, Pick, Get, Vec, Index;
    RunOne(StepInstr(s, p), m);
    ReadPlace(p, s.dst, m);
    if !s.Rot? {
      ReadPlace(p, s.src, m);
    }
    assert Step(StepInstr(s, p), m) == SetReg(m, Index(p, s.dst) + 1, Value(s, Get(Vec(m), p)));
    WriteState(m, Index(p, s.dst), Value(s, Get(Vec(m), p)));
  }

  lemma SetsChain(m: Machine, m1: Machine, m2: Machine, u: State, v: State)
    requires SetsVec(m, m1, u) && SetsVec(m1, m2, v)
    ensures SetsVec(m, m2, v) && Vec(m1) == u
  {
  }

  lemma StepCodeExact(s: StepOp, g: Group, m: Machine)
    requires ProperStep(s) && ProperGroup(g)
    ensures SetsVec(m, Run(StepCode(s, g), m), ApplyAll(s, Vec(m), g))
  {
    hide Run, Step, StepInstr, ApplyAt, SetsVec, Vec, Proper;
    RunAppend4([StepInstr(s, g.w)], [StepInstr(s, g.x)], [StepInstr(s, g.y)], [StepInstr(s, g.z)], m);
    var v0 := Vec(m);
    StepInstrExact(s, g.w, m);
    var m1 := Run([StepInstr(s, g.w)], m);
    var v1 := ApplyAt(s, v0, g.w);
    SetsVecValue(m, m1, v1);
    StepInstrExact(s, g.x, m1);
    var m2 := Run([StepInstr(s, g.x)], m1);
    var v2 := ApplyAt(s, v1, g.x);
    SetsChain(m, m1, m2, v1, v2);
    SetsVecValue(m, m2, v2);
    StepInstrExact(s, g.y, m2);
    var m3 := Run([StepInstr(s, g.y)], m2);
    var v3 := ApplyAt(s, v2, g.y);
    SetsChain(m, m2, m3, v2, v3);
    SetsVecValue(m, m3, v3);
    StepInstrExact(s, g.z, m3);
    SetsChain(m, m3, Run([StepInstr(s, g.z)], m3), v3, ApplyAt(s, v3, g.z));
  }

  lemma SetsVecValue(m: Machine, m': Machine, v: State)
    requires SetsVec(m, m', v)
    ensures Vec(m') == v
  {
  }

  lemma SetsNothing(m: Machine)
    ensures SetsVec(m, m, Vec(m))
  {
  }

  lemma {:induction false} GroupCodeExact(g: Group, n: nat, m: Machine)
    requires n <= 12 && ProperGroup(g)
    ensures SetsVec(m, Run(GroupCode(g, n), m), Interleaved(Vec(m), g, n))
  {
    hide Run, Step, StepCode, ApplyAll, SetsVec, Vec, ProperGroup;
    if n == 0 {
      RunNothing(m);
      SetsNothing(m);
    } else {
      GroupCodeExact(g, n - 1, m);
      RunAppend(GroupCode(g, n - 1), StepCode(STEPS[n - 1], g), m);
      var m1 := Run(GroupCode(g, n - 1), m);
      var v1 := Interleaved(Vec(m), g, n - 1);
      SetsVecValue(m, m1, v1);
      StepsProper(n - 1);
      StepCodeExact(STEPS[n - 1], g, m1);
      SetsChain(m, m1, Run(StepCode(STEPS[n - 1], g), m1), v1, ApplyAll(STEPS[n - 1], v1, g));
    }
  }

  /** m' is m after n of the ten emitted rounds. */
  ghost predicate Rounded(m: Machine, m': Machine, n: nat) {
    && Vec(m') == Rounds(Vec(m), n)
    && (forall k: Reg :: k == 0 || (k > 16 && k != 20) ==> m'.r[k] == m.r[k])
    && m'.mem == m.mem && m'.frame == m.frame && m'.faulted == m.faulted
    && Val(m', 20) + n == Val(m, 20)
  }

  lemma RoundCodeUnfold()
    ensures RoundCode() == GroupCode(COLUMNS, 12) + GroupCode(DIAGONALS, 12) + [Subiu(1, 20)]
    ensures ProperGroup(COLUMNS) && ProperGroup(DIAGONALS)
  {
    hide GroupCode;
  }

  lemma RoundLink(m: Machine, m1: Machine, m2: Machine, m3: Machine, n: nat)
    requires Rounded(m, m1, n) && n < Val(m, 20)
    requires SetsVec(m1, m2, ColumnRound(Vec(m1))) && SetsVec(m2, m3, DiagonalRound(Vec(m2)))
    ensures Rounded(m, SetReg(m3, 20, SubWord(m3.r[20], 1)), n + 1)
  {
    hide ColumnRound, DiagonalRound;
    var m4 := SetReg(m3, 20, SubWord(m3.r[20], 1));
    assert Vec(m4) == Vec(m3);
    assert Vec(m3) == DoubleRound(Vec(m1));
  }

  lemma StepSubiu(n: Word, d: Reg, m: Machine)
    ensures Run([Subiu(n, d)], m) == SetReg(m, d, SubWord(m.r[d], n))
  {
    RunOne(Subiu(n, d), m);
  }

  lemma RoundCodeExact(m: Machine, m1: Machine, n: nat)
    requires Rounded(m, m1, n) && n < Val(m, 20)
    ensures Rounded(m, Run(RoundCode(), m1), n + 1)
  {
    hide Run, Step, GroupCode, RoundCode, Rounded, SetsVec, Interleaved, RoundOf, Vec, ColumnRound, DiagonalRound;
    RoundCodeUnfold();
    RunAppend(GroupCode(COLUMNS, 12) + GroupCode(DIAGONALS, 12), [Subiu(1, 20)], m1);
    RunAppend(GroupCode(COLUMNS, 12), GroupCode(DIAGONALS, 12), m1);
    GroupCodeExact(COLUMNS, 12, m1);
    InterleavedIsRound(Vec(m1), COLUMNS);
    GroupsAreRfc(Vec(m1));
    var m2 := Run(GroupCode(COLUMNS, 12), m1);
    GroupCodeExact(DIAGONALS, 12, m2);
    InterleavedIsRound(Vec(m2), DIAGONALS);
    GroupsAreRfc(Vec(m2));
    var m3 := Run(GroupCode(DIAGONALS, 12), m2);
    StepSubiu(1, 20, m3);
    RoundLink(m, m1, m2, m3, n);
  }

  // ----- the emitted round, instruction by instruction -----

  /** Register of row l in quarter q: straight down in the first half of the round,
      one column further right per row in the second. */
  function RowRegister(half: nat, q: nat, l: nat): Reg
    requires half < 2 && q < 4 && l < 4
  {
    4 * l + (if half == 0 then q else (q + l) % 4) + 1
  }

  /** Step n of quarter q: a += b, d ^= a, d <<<= 16; c += d, b ^= c, b <<<= 12; and
      again with 8 and 7, each left rotation done as one to the right. */
  function RfcInstr(half: nat, n: nat, q: nat): Instr
    requires half < 2 && n < 12 && q < 4
  {
    var a, b, c, d := RowRegister(half, q, 0), RowRegister(half, q, 1), RowRegister(half, q, 2), RowRegister(half, q, 3);
    match n % 6
    case 0 => Addu(b, a)
    case 1 => Xor(a, d)
    case 2 => Rotr(32 - (if n < 6 then 16 else 8), d)
    case 3 => Addu(d, c)
    case 4 => Xor(c, b)
    case _ => Rotr(32 - (if n < 6 then 12 else 7), b)
  }

  function PlaceOf(g: Group, q: nat): Places
    requires q < 4
  {
    match q case 0 => g.w case 1 => g.x case 2 => g.y case _ => g.z
  }

  lemma {:induction false} GroupCodeAt(g: Group, n: nat, i: nat, q: nat)
    requires i < n <= 12 && q < 4 && ProperGroup(g)
    ensures |GroupCode(g, n)| == 4 * n && Proper(PlaceOf(g, q)) && GroupCode(g, n)[4 * i + q] == StepInstr(STEPS[i], PlaceOf(g, q))
    decreases n
  {
    hide StepInstr, Proper;
    GroupCodeLength(g, n - 1);
    if i < n - 1 {
      GroupCodeAt(g, n - 1, i, q);
    }
  }

  lemma {:induction false} GroupCodeLength(g: Group, n: nat)
    requires n <= 12 && ProperGroup(g)
    ensures |GroupCode(g, n)| == 4 * n
  {
    hide StepInstr, Proper;
    if n > 0 {
      GroupCodeLength(g, n - 1);
    }
  }

  predicate CodeAt(code: seq<Instr>, i: nat, x: Instr) {
    i < |code| && code[i] == x
  }

  lemma PlaceRegisters(half: nat, q: nat)
    requires half < 2 && q < 4
    ensures var p := PlaceOf(if half == 0 then COLUMNS else DIAGONALS, q);
      && Proper(p)
      && p.a + 1 == RowRegister(half, q, 0) && p.b + 1 == RowRegister(half, q, 1)
      && p.c + 1 == RowRegister(half, q, 2) && p.d + 1 == RowRegister(half, q, 3)
  {
  }

  lemma StepAtPlace(half: nat, n: nat, q: nat)
    requires half < 2 && n < 12 && q < 4
    ensures var g := if half == 0 then COLUMNS else DIAGONALS;
      Proper(PlaceOf(g, q)) && StepInstr(STEPS[n], PlaceOf(g, q)) == RfcInstr(half, n, q)
  {
    hide PlaceOf, RowRegister, Proper, COLUMNS, DIAGONALS;
    PlaceRegisters(half, q);
  }

  /** Instruction by instruction, the emitted double round is twelve steps, each on
      the four quarters, of a column round and then of a diagonal round. */
  lemma EmittedRound(half: nat, n: nat, q: nat)
    requires half < 2 && n < 12 && q < 4
    ensures |RoundCode()| == 97 && CodeAt(RoundCode(), 48 * half + 4 * n + q, RfcInstr(half, n, q))
  {
    hide GroupCode, StepInstr, RfcInstr;
    RoundCodeUnfold();
    GroupCodeLength(COLUMNS, 12);
    GroupCodeLength(DIAGONALS, 12);
    GroupCodeAt(if half == 0 then COLUMNS else DIAGONALS, 12, n, q);
    StepAtPlace(half, n, q);
  }

  // ----- loading the input state -----

  /** The input state at st with the block counter c in place of word 12. */
  function Input(mem: Memory, st: nat, c: Word): State
    requires st + 64 <= WORD
  {
    seq(16, i requires 0 <= i < 16 => if i == 12 then c else LoadWord(mem, st + 4 * i))
  }

  ghost predicate LoadedVec(m: Machine, m': Machine, n: nat)
    requires n <= 16 && Val(m, 17) + 64 <= WORD
  {
    && (forall i :: 0 <= i < n ==> m'.r[i + 1] == Input(m.mem, Val(m, 17), m.r[25])[i])
    && (forall k: Reg :: k == 0 || k > 16 ==> m'.r[k] == m.r[k])
    && m'.mem == m.mem && m'.frame == m.frame && m'.faulted == m.faulted
  }

  lemma InputAt(mem: Memory, st: nat, c: Word, i: nat)
    requires st + 64 <= WORD && i < 16
    ensures Input(mem, st, c)[i] == if i == 12 then c else LoadWord(mem, st + 4 * i)
  {
  }

  lemma LoadNext(n: nat, m: Machine, m1: Machine)
    requires 0 < n <= 16 && Val(m, 17) + 64 <= WORD && LoadedVec(m, m1, n - 1)
    ensures LoadedVec(m, SetReg(m1, n, Input(m.mem, Val(m, 17), m.r[25])[n - 1]), n)
  {
    hide Input;
  }

  lemma {:induction false} LoadCodeExact(n: nat, m: Machine)
    requires n <= 16 && Val(m, 17) % 4 == 0 && Val(m, 17) + 64 <= WORD
    ensures LoadedVec(m, Run(LoadCode(n), m), n)
  {
    hide Run, Step, LoadWord, Input, LoadedVec;
    if n == 0 {
      RunNothing(m);
      LoadNone(m);
    } else {
      LoadCodeExact(n - 1, m);
      var m1 := Run(LoadCode(n - 1), m);
      LoadKeeps(n - 1, m, m1);
      RunAppend(LoadCode(n - 1), [if n == 13 then Move(25, 13) else Lw(4 * n - 4, 17, n)], m);
      InputAt(m.mem, Val(m, 17), m.r[25], n - 1);
      if n == 13 {
        StepMove(25, 13, m1);
      } else {
        RunLw(4 * n - 4, 17, n, m1);
      }
      LoadNext(n, m, m1);
    }
  }

  lemma LoadNone(m: Machine)
    requires Val(m, 17) + 64 <= WORD
    ensures LoadedVec(m, m, 0)
  {
  }

  lemma LoadKeeps(n: nat, m: Machine, m1: Machine)
    requires n <= 16 && Val(m, 17) + 64 <= WORD && LoadedVec(m, m1, n)
    ensures m1.mem == m.mem && m1.r[17] == m.r[17] && m1.r[25] == m.r[25]
  {
  }

  // ----- adding the input state and writing the xor -----

  /** The input word added to state register i+1. */
  ghost function Addend(m: Machine, i: nat): Word
    requires i < 16 && Val(m, 17) + 64 <= WORD
  {
    if i == 12 then m.r[25] else LoadWord(m.mem, Val(m, 17) + 4 * i)
  }

  ghost function OutWord(m: Machine, i: nat): Word
    requires i < 16 && Val(m, 17) + 64 <= WORD && Val(m, 19) + 64 <= WORD
  {
    WordXor(LoadWord(m.mem, Val(m, 19) + 4 * i), AddWord(m.r[i + 1], Addend(m, i)))
  }

  ghost predicate Pointers(m: Machine) {
    && Val(m, 17) % 4 == 0 && Val(m, 17) + 64 <= WORD
    && Val(m, 18) + 64 <= WORD && Val(m, 19) + 64 <= WORD
  }

  /** m' is m with output word i stored; only registers 20, 21, i+1 change. */
  ghost predicate WordDone(i: nat, m: Machine, m': Machine)
    requires i < 16 && Pointers(m)
  {
    && m'.mem == StoreWord(m.mem, Val(m, 18) + 4 * i, OutWord(m, i))
    && (forall k: Reg :: k != 20 && k != 21 && k != i + 1 ==> m'.r[k] == m.r[k])
    && m'.frame == m.frame && m'.faulted == m.faulted
  }

  lemma FetchAddend(i: nat, d: Reg, m: Machine)
    requires i < 16 && Pointers(m) && d != 0
    ensures Run([if i == 12 then Move(25, d) else Lw(4 * i, 17, d)], m) == SetReg(m, d, Addend(m, i))
  {
    hide Run, Step, LoadWord;
    if i == 12 {
      StepMove(25, d, m);
    } else {
      RunLw(4 * i, 17, d, m);
    }
  }

  lemma StepXor(a: Reg, d: Reg, m: Machine)
    ensures Run([Xor(a, d)], m) == SetReg(m, d, WordXor(m.r[d], m.r[a]))
  {
    hide Run, WordXor;
    RunOne(Xor(a, d), m);
  }

  lemma AddXor(i: nat, m: Machine)
    requires i < 16
    ensures Run([Addu(20, i + 1), Xor(i + 1, 21)], m)
         == SetReg(SetReg(m, i + 1, AddWord(m.r[i + 1], m.r[20])), 21, WordXor(m.r[21], AddWord(m.r[i + 1], m.r[20])))
  {
    hide Run, Step, WordXor, AddWord;
    assert [Addu(20, i + 1), Xor(i + 1, 21)] == [Addu(20, i + 1)] + [Xor(i + 1, 21)];
    RunAppend([Addu(20, i + 1)], [Xor(i + 1, 21)], m);
    StepAddu(20, i + 1, m);
    StepXor(i + 1, 21, SetReg(m, i + 1, AddWord(m.r[i + 1], m.r[20])));
  }

  lemma AlignedWord(i: nat, m: Machine)
    requires i < 16 && Pointers(m) && Val(m, 18) % 4 == 0 && Val(m, 19) % 4 == 0
    ensures WordDone(i, m, Run(WordCode(i, true), m))
  {
    hide Run, Step, LoadWord, StoreWord, WordXor, AddWord, Addend;
    var fetch := [if i == 12 then Move(25, 20) else Lw(4 * i, 17, 20)];
    RunAppend(fetch + [Lw(4 * i, 19, 21)] + [Addu(20, i + 1), Xor(i + 1, 21)], [Sw(21, 4 * i, 18)], m);
    RunAppend(fetch + [Lw(4 * i, 19, 21)], [Addu(20, i + 1), Xor(i + 1, 21)], m);
    RunAppend(fetch, [Lw(4 * i, 19, 21)], m);
    FetchAddend(i, 20, m);
    var m1 := SetReg(m, 20, Addend(m, i));
    RunLw(4 * i, 19, 21, m1);
    var m2 := SetReg(m1, 21, LoadWord(m.mem, Val(m, 19) + 4 * i));
    AddXor(i, m2);
    var m3 := Run([Addu(20, i + 1), Xor(i + 1, 21)], m2);
    RunSw(21, 4 * i, 18, m3);
  }

  lemma UnalignedWord(i: nat, m: Machine)
    requires i < 16 && Pointers(m)
    ensures WordDone(i, m, Run(WordCode(i, false), m))
  {
    hide Run, Step, LoadWord, StoreWord, WordXor, AddWord, Addend;
    var fetch := [if i == 12 then Move(25, 21) else Lw(4 * i, 17, 21)];
    var load := [Lwl(4 * i + 3, 19, 21), Lwr(4 * i, 19, 21)];
    var store := [Swl(21, 4 * i + 3, 18), Swr(21, 4 * i, 18)];
    RunAppend(fetch + [Addu(21, i + 1)] + load + [Xor(i + 1, 21)], store, m);
    RunAppend4(fetch, [Addu(21, i + 1)], load, [Xor(i + 1, 21)], m);
    FetchAddend(i, 21, m);
    var m1 := SetReg(m, 21, Addend(m, i));
    StepAddu(21, i + 1, m1);
    var m2 := SetReg(m1, i + 1, AddWord(m.r[i + 1], Addend(m, i)));
    RunUnalignedLoad(4 * i, 19, 21, m2);
    var m3 := SetReg(m2, 21, LoadWord(m.mem, Val(m, 19) + 4 * i));
    StepXor(i + 1, 21, m3);
    var m4 := SetReg(m3, 21, OutWord(m, i));
    RunUnalignedStore(21, 4 * i, 18, m4);
  }

  /** Reads stay valid while writing: in place, or fully apart. */
  ghost predicate Separate(st: nat, dst: nat, src: nat, len: nat) {
    && (dst + len <= st || st + 64 <= dst)
    && (dst == src || dst + len <= src || src + len <= dst)
  }

  /** m' is m after the first n output words, with key words ks. */
  ghost predicate Output(n: nat, m: Machine, m': Machine, ks: State)
    requires n <= 16 && Pointers(m)
  {
    && (forall i :: 0 <= i < n ==> WordAt(m'.mem, Val(m, 18) + 4 * i) == WordXor(LoadWord(m.mem, Val(m, 19) + 4 * i), ks[i]))
    && (forall j :: 0 <= j < WORD && !(Val(m, 18) <= j < Val(m, 18) + 4 * n) ==> m'.mem[j] == m.mem[j])
    && (forall k: Reg :: k == 0 || (k > n && k != 20 && k != 21) ==> m'.r[k] == m.r[k])
    && m'.frame == m.frame && m'.faulted == m.faulted
  }

  lemma OutputNext(n: nat, m: Machine, m1: Machine, m2: Machine, ks: State)
    requires n < 16 && Pointers(m) && Separate(Val(m, 17), Val(m, 18), Val(m, 19), 64)
    requires Output(n, m, m1, ks) && Pointers(m1) && WordDone(n, m1, m2)
    requires ks[n] == AddWord(m.r[n + 1], Addend(m, n))
    ensures Output(n + 1, m, m2, ks)
  {
    hide LoadWord, StoreWord, WordXor, AddWord;
    var d, s := Val(m, 18), Val(m, 19);
    LoadElsewhere(m.mem, m1.mem, s + 4 * n);
    LoadElsewhere(m.mem, m1.mem, Val(m, 17) + 4 * n);
    assert Addend(m1, n) == Addend(m, n);
    assert OutWord(m1, n) == WordXor(LoadWord(m.mem, s + 4 * n), ks[n]);
    StoreFrame(m1.mem, d + 4 * n, OutWord(m1, n));
    LoadStored(m1.mem, d + 4 * n, OutWord(m1, n));
    forall i | 0 <= i < n
      ensures WordAt(m2.mem, d + 4 * i) == WordAt(m1.mem, d + 4 * i)
    {
      LoadElsewhere(m1.mem, m2.mem, d + 4 * i);
    }
  }

  lemma OutputPointers(n: nat, m: Machine, m1: Machine, ks: State)
    requires n <= 16 && Pointers(m) && Output(n, m, m1, ks)
    ensures Pointers(m1) && Val(m1, 18) == Val(m, 18) && Val(m1, 19) == Val(m, 19)
  {
    hide LoadWord, WordXor;
  }

  lemma {:induction false} OutputExact(n: nat, aligned: bool, m: Machine, ks: State)
    requires n <= 16 && Pointers(m) && Separate(Val(m, 17), Val(m, 18), Val(m, 19), 64)
    requires aligned ==> Val(m, 18) % 4 == 0 && Val(m, 19) % 4 == 0
    requires forall i :: 0 <= i < 16 ==> ks[i] == AddWord(m.r[i + 1], Addend(m, i))
    ensures Output(n, m, Run(OutputCode(n, aligned), m), ks)
  {
    hide Run, Step, WordCode, Addend, AddWord, WordDone, Output, Pointers, Separate;
    if n == 0 {
      RunNothing(m);
      OutputNone(m, ks);
    } else {
      OutputExact(n - 1, aligned, m, ks);
      RunAppend(OutputCode(n - 1, aligned), WordCode(n - 1, aligned), m);
      var m1 := Run(OutputCode(n - 1, aligned), m);
      OutputPointers(n - 1, m, m1, ks);
      if aligned {
        AlignedWord(n - 1, m1);
      } else {
        UnalignedWord(n - 1, m1);
      }
      OutputNext(n - 1, m, m1, Run(WordCode(n - 1, aligned), m1), ks);
    }
  }

  lemma OutputNone(m: Machine, ks: State)
    requires Pointers(m)
    ensures Output(0, m, m, ks)
  {
  }

  // ----- one block -----

  ghost predicate CipheredBlock(mem: Memory, mem': Memory, d: nat, s: nat, ks: State)
    requires d + 64 <= WORD && s + 64 <= WORD
  {
    && (forall i :: 0 <= i < 16 ==> WordAt(mem', d + 4 * i) == WordXor(LoadWord(mem, s + 4 * i), ks[i]))
    && (forall j :: 0 <= j < WORD && !(d <= j < d + 64) ==> mem'[j] == mem[j])
  }

  /** m' is m after one block: the RFC key stream block for counter R25 xored in,
      pointers and counter advanced. */
  ghost predicate BlockDone(m: Machine, m': Machine)
    requires Pointers(m)
  {
    && CipheredBlock(m.mem, m'.mem, Val(m, 18), Val(m, 19), Block(Input(m.mem, Val(m, 17), m.r[25])))
    && m'.r[17] == m.r[17] && m'.r[18] == AddWord(m.r[18], 64) && m'.r[19] == AddWord(m.r[19], 64)
    && m'.r[25] == AddWord(m.r[25], 1) && m'.r[24] == SubWord(m.r[24], 1)
    && m'.frame == m.frame && m'.faulted == m.faulted
  }

  lemma OrHalf(a: nat, b: nat)
    ensures BitOr(a, b) == 2 * BitOr(a / 2, b / 2) + Bit(a % 2 == 1 || b % 2 == 1)
  {
  }

  lemma OrLowBits(a: nat, b: nat)
    requires BitOr(a, b) % 4 == 0
    ensures a % 4 == 0 && b % 4 == 0
  {
    hide BitOr;
    OrHalf(a, b);
    OrHalf(a / 2, b / 2);
  }

  function AlignCode(): seq<Instr> {
    [Or(18, 19, 21), Andi(3, 21, 21)]
  }

  lemma AlignExact(m: Machine)
    ensures var m' := Run(AlignCode(), m);
      && (m'.r[21] == 0 ==> Val(m, 18) % 4 == 0 && Val(m, 19) % 4 == 0)
      && m' == SetReg(m, 21, m'.r[21])
  {
    hide Run, WordOr, WordAnd;
    RunTwo(Or(18, 19, 21), Andi(3, 21, 21), m);
    var w := WordOr(m.r[18], m.r[19]);
    AlignWords(m.r[18], m.r[19]);
    var m1 := SetReg(m, 21, w);
    assert m1 == Step(Or(18, 19, 21), m);
    assert Step(Andi(3, 21, 21), m1) == SetReg(m, 21, WordAnd(3, w));
  }

  lemma AlignWords(a: Word, b: Word)
    ensures WordAnd(3, WordOr(a, b)) == 0 ==> a % 4 == 0 && b % 4 == 0
  {
    AndTwoBits(WordOr(a, b));
    if BitOr(a, b) % 4 == 0 {
      OrLowBits(a, b);
    }
  }

  ghost function Advanced(m: Machine): Machine {
    m.(r := m.r[18 := AddWord(m.r[18], 64)][19 := AddWord(m.r[19], 64)][25 := AddWord(m.r[25], 1)][24 := SubWord(m.r[24], 1)])
  }

  lemma NextExact(m: Machine)
    ensures Run(NextCode(), m)
         == Advanced(m)
  {
    hide Run, AddWord, SubWord;
    RunAppend([Addiu(64, 18), Addiu(64, 19)], [Addiu(1, 25), Subiu(1, 24)], m);
    RunTwo(Addiu(64, 18), Addiu(64, 19), m);
    var m1 := m.(r := m.r[18 := AddWord(m.r[18], 64)][19 := AddWord(m.r[19], 64)]);
    assert m1 == Step(Addiu(64, 19), Step(Addiu(64, 18), m));
    RunTwo(Addiu(1, 25), Subiu(1, 24), m1);
  }

  lemma StepLi(n: Word, d: Reg, m: Machine)
    ensures Run([Li(n, d)], m) == SetReg(m, d, n)
  {
    RunOne(Li(n, d), m);
  }

  lemma StartRounds(m: Machine, m1: Machine)
    requires Pointers(m) && LoadedVec(m, m1, 16)
    ensures var m2 := SetReg(m1, 20, 10);
      Vec(m2) == Input(m.mem, Val(m, 17), m.r[25]) && Rounded(m2, m2, 0) && Val(m2, 20) == 10
  {
    hide Input;
    var v := Input(m.mem, Val(m, 17), m.r[25]);
    var m2 := SetReg(m1, 20, 10);
    assert Vec(m2) == v;
    assert Rounds(v, 0) == v;
  }

  /** Pointers, counts and memory are as before the rounds. */
  ghost predicate Fixed(m: Machine, m': Machine) {
    && m'.r[17] == m.r[17] && m'.r[18] == m.r[18] && m'.r[19] == m.r[19] && m'.r[24] == m.r[24] && m'.r[25] == m.r[25]
    && m'.mem == m.mem && m'.frame == m.frame && m'.faulted == m.faulted
  }

  /** After ten rounds, the words to add make the RFC block. */
  lemma KeyWords(m: Machine, m1: Machine, m3: Machine, a: Word)
    requires Pointers(m) && LoadedVec(m, m1, 16) && Rounded(SetReg(m1, 20, 10), m3, 10)
    requires Vec(SetReg(m1, 20, 10)) == Input(m.mem, Val(m, 17), m.r[25])
    ensures var m4, ks := SetReg(m3, 21, a), Block(Input(m.mem, Val(m, 17), m.r[25]));
      && Pointers(m4) && Fixed(m, m4)
      && forall i :: 0 <= i < 16 ==> ks[i] == AddWord(m4.r[i + 1], Addend(m4, i))
  {
    hide Rounds, AddWord;
    var v := Input(m.mem, Val(m, 17), m.r[25]);
    var m4, ks := SetReg(m3, 21, a), Block(v);
    forall i | 0 <= i < 16
      ensures ks[i] == AddWord(m4.r[i + 1], Addend(m4, i))
    {
      InputAt(m.mem, Val(m, 17), m.r[25], i);
      assert Vec(m3)[i] == m3.r[i + 1];
    }
  }

  lemma BlockClose(m: Machine, m4: Machine, m5: Machine, ks: State)
    requires Pointers(m) && Pointers(m4) && ks == Block(Input(m.mem, Val(m, 17), m.r[25]))
    requires Fixed(m, m4) && Output(16, m4, m5, ks)
    ensures BlockDone(m, Advanced(m5))
  {
    hide Block, Input, AddWord, SubWord, WordXor, LoadWord;
  }

  /** One iteration of the emitted block loop. */
  method XorBlock(m0: Machine) returns (m: Machine)
    requires Pointers(m0) && Separate(Val(m0, 17), Val(m0, 18), Val(m0, 19), 64)
    ensures BlockDone(m0, m)
  {
    hide Run, Step, LoadCode, RoundCode, OutputCode, AlignCode, NextCode, Rounded, LoadedVec, Output, BlockDone, Block, Input, Rounds, AddWord, SubWord, Addend, Vec;
    m := Run(LoadCode(16), m0);
    LoadCodeExact(16, m0);
    ghost var m1 := m;
    StepLi(10, 20, m);
    m := Run([Li(10, 20)], m);
    ghost var m2 := m;
    StartRounds(m0, m1);
    ghost var n := 0;
    RoundCodeExact(m2, m, 0);
    m := Run(RoundCode(), m);
    n := 1;
    RoundsLeft(m2, m, n);
    while m.r[20] != 0
      invariant 1 <= n <= 10 && Rounded(m2, m, n) && Val(m, 20) + n == 10
      decreases 10 - n
    {
      RoundCodeExact(m2, m, n);
      m := Run(RoundCode(), m);
      n := n + 1;
      RoundsLeft(m2, m, n);
    }
    ghost var m3 := m;
    AlignExact(m);
    m := Run(AlignCode(), m);
    KeyWords(m0, m1, m3, m.r[21]);
    ghost var m4, ks := m, Block(Input(m0.mem, Val(m0, 17), m0.r[25]));
    if m.r[21] != 0 {
      OutputExact(16, false, m, ks);
      m := Run(OutputCode(16, false), m);
    } else {
      AlignKept(m3, m4, m4.r[21]);
      OutputExact(16, true, m, ks);
      m := Run(OutputCode(16, true), m);
    }
    NextExact(m);
    BlockClose(m0, m4, m, ks);
    m := Run(NextCode(), m);
  }

  lemma AlignKept(m: Machine, m': Machine, a: Word)
    requires m' == SetReg(m, 21, a)
    ensures Val(m', 18) == Val(m, 18) && Val(m', 19) == Val(m, 19)
  {
  }

  lemma RoundsLeft(m: Machine, m': Machine, n: nat)
    requires Rounded(m, m', n)
    ensures Val(m', 20) + n == Val(m, 20)
  {
    hide Rounds;
  }
}
