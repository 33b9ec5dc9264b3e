/** The whole emitted routine (state in memory, a loop over blocks) and the Go
    driver that feeds it 16 KiB at a time. */
module PolyUpdate {
  import opened Words
  import opened Mips
  import opened PolyBlocks
  import opened PolyRows
  import opened PolyReduce
  import opened Poly1305

  const CHUNK := 16 * 1024

  // ----- memory words -----

  // ----- the state in memory: h at 0..20, a zero word at 20, r at 24..40 -----

  function StateAcc(mem: Memory, st: nat): nat
    requires st + 40 <= WORD
  {
    WordAt(mem, st) + W1 * WordAt(mem, st + 4) + W2 * WordAt(mem, st + 8) + W3 * WordAt(mem, st + 12) + W4 * WordAt(mem, st + 16)
  }

  function StateKey(mem: Memory, st: nat): nat
    requires st + 40 <= WORD
  {
    WordAt(mem, st + 24) + W1 * WordAt(mem, st + 28) + W2 * WordAt(mem, st + 32) + W3 * WordAt(mem, st + 36)
  }

  ghost predicate KeyClamped(mem: Memory, st: nat)
    requires st + 40 <= WORD
  {
    forall i :: 0 <= i < 4 ==> WordAt(mem, st + 24 + 4 * i) < 0x1000_0000
  }

  /** A state the block routines accept. */
  ghost predicate GoodState(mem: Memory, st: nat) {
    st % 4 == 0 && st + 40 <= WORD && StateAcc(mem, st) < ACC_LIMIT && KeyClamped(mem, st)
  }

  // ----- loading and storing the state -----

  function Loads(off: nat, dst: nat, n: nat): seq<Instr>
    requires off + 4 * n <= 40 && dst + n <= 20 && dst > 0
  {
    if n == 0 then [] else Loads(off, dst, n - 1) + [Lw(off + 4 * n - 4, 20, dst + n - 1)]
  }

  function Stores(n: nat): seq<Instr>
    requires n <= 5
  {
    if n == 0 then [] else Stores(n - 1) + [Sw(2 + n, 4 * n - 4, 20)]
  }

  ghost predicate Loaded(m: Machine, m': Machine, st: nat, off: nat, dst: nat, n: nat)
    requires dst + n <= 20 && st + off + 4 * n <= WORD
  {
    && OnlyRegisters(m, m', dst, dst + n)
    && Val(m', 20) == Val(m, 20)
    && (forall i :: 0 <= i < n ==> m'.r[dst + i] == LoadWord(m.mem, st + off + 4 * i))
  }

  lemma {:induction false} LoadsExact(off: nat, dst: nat, n: nat, m: Machine)
    requires off + 4 * n <= 40 && dst + n <= 20 && dst > 0 && off % 4 == 0
    requires Val(m, 20) % 4 == 0 && Val(m, 20) + 40 <= WORD
    ensures Loaded(m, Run(Loads(off, dst, n), m), Val(m, 20), off, dst, n)
  {
    hide Run, Step, LoadWord;
    if n == 0 {
      RunNothing(m);
    } else {
      LoadsExact(off, dst, n - 1, m);
      RunAppend(Loads(off, dst, n - 1), [Lw(off + 4 * n - 4, 20, dst + n - 1)], m);
      RunLw(off + 4 * n - 4, 20, dst + n - 1, Run(Loads(off, dst, n - 1), m));
    }
  }

  /** m' is m with R3.. stored at the state, first n words. */
  ghost predicate Stored(m: Machine, m': Machine, st: nat, n: nat)
    requires n <= 5 && st + 24 <= WORD
  {
    && m' == m.(mem := m'.mem)
    && (forall i :: 0 <= i < WORD && !(st <= i < st + 4 * n) ==> m'.mem[i] == m.mem[i])
    && (forall i :: 0 <= i < n ==> WordAt(m'.mem, st + 4 * i) == Val(m, 3 + i))
  }

  lemma StoreNext(m: Machine, m1: Machine, st: nat, n: nat)
    requires n < 5 && st + 24 <= WORD && Stored(m, m1, st, n)
    ensures Stored(m, m1.(mem := StoreWord(m1.mem, st + 4 * n, m1.r[3 + n])), st, n + 1)
  {
    hide StoreWord, LoadWord;
    var mem' := StoreWord(m1.mem, st + 4 * n, m1.r[3 + n]);
    StoreFrame(m1.mem, st + 4 * n, m1.r[3 + n]);
    LoadStored(m1.mem, st + 4 * n, m1.r[3 + n]);
    forall i | 0 <= i < n
      ensures WordAt(mem', st + 4 * i) == Val(m, 3 + i)
    {
      LoadElsewhere(m1.mem, mem', st + 4 * i);
    }
  }

  lemma {:induction false} StoresExact(n: nat, m: Machine)
    requires n <= 5 && Val(m, 20) % 4 == 0 && Val(m, 20) + 40 <= WORD
    ensures Stored(m, Run(Stores(n), m), Val(m, 20), n)
  {
    hide Run, Step, StoreWord, WordAt;
    if n == 0 {
      RunNothing(m);
    } else {
      StoresExact(n - 1, m);
      RunAppend(Stores(n - 1), [Sw(2 + n, 4 * n - 4, 20)], m);
      var m1 := Run(Stores(n - 1), m);
      RunSw(2 + n, 4 * n - 4, 20, m1);
      StoreNext(m, m1, Val(m, 20), n - 1);
    }
  }

  // ----- the emitted routine -----

  function Arguments(): seq<Instr> {
    [Larg(0, 20), Larg(1, 1), Larg(2, 2)]
  }

  function LoadState(): seq<Instr> {
    Loads(0, 3, 5) + Loads(24, 16, 4)
  }

  function StoreState(): seq<Instr> {
    [Larg(0, 20)] + (Stores(5) + [Sw(0, 20, 20)])
  }

  lemma ArgumentsExact(m: Machine)
    requires |m.frame| == 3
    ensures var m' := Run(Arguments(), m);
      && Val(m', 20) == m.frame[0] && Val(m', 1) == m.frame[1] && Val(m', 2) == m.frame[2]
      && m'.mem == m.mem && m'.frame == m.frame && m'.faulted == m.faulted
  {
    hide Run;
    RunThree(Larg(0, 20), Larg(1, 1), Larg(2, 2), m);
  }

  /** Registers hold the state at st, as loaded. */
  ghost predicate Holds(m: Machine, mem: Memory, st: nat)
    requires st + 40 <= WORD
  {
    Acc(m) == StateAcc(mem, st) && Key(m) == StateKey(mem, st) && (KeyClamped(mem, st) ==> Clamped(m))
  }

  lemma LoadedAt(m: Machine, m': Machine, st: nat, off: nat, dst: nat, n: nat, i: nat)
    requires dst + n <= 20 && st + off + 4 * n <= WORD && i < n && Loaded(m, m', st, off, dst, n)
    ensures Val(m', dst + i) == WordAt(m.mem, st + off + 4 * i)
  {
    hide LoadWord;
  }

  lemma HoldsLoaded(m: Machine, m1: Machine, m2: Machine, st: nat)
    requires st + 40 <= WORD && Loaded(m, m1, st, 0, 3, 5) && Loaded(m1, m2, st, 24, 16, 4)
    ensures Holds(m2, m.mem, st)
  {
    hide LoadWord;
    LoadedAt(m, m1, st, 0, 3, 5, 0);
    LoadedAt(m, m1, st, 0, 3, 5, 1);
    LoadedAt(m, m1, st, 0, 3, 5, 2);
    LoadedAt(m, m1, st, 0, 3, 5, 3);
    LoadedAt(m, m1, st, 0, 3, 5, 4);
    LoadedAt(m1, m2, st, 24, 16, 4, 0);
    LoadedAt(m1, m2, st, 24, 16, 4, 1);
    LoadedAt(m1, m2, st, 24, 16, 4, 2);
    LoadedAt(m1, m2, st, 24, 16, 4, 3);
    assert KeyClamped(m.mem, st) ==> forall i :: 0 <= i < 4 ==> WordAt(m.mem, st + 24 + 4 * i) < 0x1000_0000;
  }

  lemma LoadStateExact(m: Machine)
    requires Val(m, 20) % 4 == 0 && Val(m, 20) + 40 <= WORD
    ensures var m' := Run(LoadState(), m);
      OnlyRegisters(m, m', 3, 20) && Holds(m', m.mem, Val(m, 20))
  {
    hide Run, Loads, Holds, LoadWord;
    LoadsExact(0, 3, 5, m);
    var m1 := Run(Loads(0, 3, 5), m);
    LoadsExact(24, 16, 4, m1);
    RunAppend(Loads(0, 3, 5), Loads(24, 16, 4), m);
    HoldsLoaded(m, m1, Run(Loads(24, 16, 4), m1), Val(m, 20));
  }

  /** mem' is mem with the accumulator at st replaced by h. */
  ghost predicate StateUpdated(mem: Memory, mem': Memory, st: nat, h: nat)
    requires st + 40 <= WORD
  {
    && StateAcc(mem', st) == h
    && WordAt(mem', st + 20) == 0
    && (forall i :: 0 <= i < WORD && !(st <= i < st + 24) ==> mem'[i] == mem[i])
  }

  lemma UpdateKeepsKey(mem: Memory, mem': Memory, st: nat, h: nat)
    requires st + 40 <= WORD && StateUpdated(mem, mem', st, h)
    ensures StateKey(mem', st) == StateKey(mem, st) && (KeyClamped(mem, st) ==> KeyClamped(mem', st))
  {
    hide StateAcc;
    forall i | 0 <= i < 4
      ensures WordAt(mem', st + 24 + 4 * i) == WordAt(mem, st + 24 + 4 * i)
    {
      LoadElsewhere(mem, mem', st + 24 + 4 * i);
    }
  }

  lemma StoredAcc(m: Machine, m1: Machine, st: nat)
    requires st + 40 <= WORD && Stored(m, m1, st, 5)
    ensures StateUpdated(m.mem, StoreWord(m1.mem, st + 20, 0), st, Acc(m))
  {
    hide StoreWord, LoadWord;
    var mem' := StoreWord(m1.mem, st + 20, 0);
    LoadStored(m1.mem, st + 20, 0);
    StoreFrame(m1.mem, st + 20, 0);
    forall i | 0 <= i < 5
      ensures WordAt(mem', st + 4 * i) == Val(m, 3 + i)
    {
      LoadElsewhere(m1.mem, mem', st + 4 * i);
    }
    assert WordAt(mem', st + 4 * 0) == Val(m, 3 + 0) && WordAt(mem', st + 4 * 1) == Val(m, 3 + 1);
    assert WordAt(mem', st + 4 * 2) == Val(m, 3 + 2) && WordAt(mem', st + 4 * 3) == Val(m, 3 + 3);
    assert WordAt(mem', st + 4 * 4) == Val(m, 3 + 4);
  }

  lemma StoreStateExact(m: Machine)
    requires |m.frame| == 3 && m.frame[0] % 4 == 0 && m.frame[0] as nat + 40 <= WORD
    ensures var m' := Run(StoreState(), m);
      StateUpdated(m.mem, m'.mem, m.frame[0], Acc(m)) && m'.faulted == m.faulted
  {
    hide Run, Step, Stores, StoreWord, StateUpdated, WordAt;
    RunAppend([Larg(0, 20)], Stores(5) + [Sw(0, 20, 20)], m);
    LargStep(m);
    var m0 := SetReg(m, 20, m.frame[0]);
    RunAppend(Stores(5), [Sw(0, 20, 20)], m0);
    StoresExact(5, m0);
    var m1 := Run(Stores(5), m0);
    RunSw(0, 20, 20, m1);
    StoredAcc(m0, m1, m.frame[0]);
  }

  lemma LargStep(m: Machine)
    requires |m.frame| == 3
    ensures Run([Larg(0, 20)], m) == SetReg(m, 20, m.frame[0])
  {
    hide Run;
    RunOne(Larg(0, 20), m);
  }

  /** The bytes of the first n blocks. */
  ghost function Blocks(mem: Memory, a: nat, n: nat): seq<Byte>
    requires a + 16 * n <= WORD
  {
    mem[a..a + 16 * n]
  }

  lemma OneMoreBlock(h: nat, r: nat, mem: Memory, a: nat, n: nat)
    requires a + 16 * (n + 1) <= WORD
    ensures LazyFold(h, r, Blocks(mem, a, n + 1))
         == LazyStep(LazyFold(h, r, Blocks(mem, a, n)), r, MessageWords(mem, a + 16 * n) + W4)
  {
    hide LazyStep, BlockNumber, MessageWords;
    var b := mem[a + 16 * n..a + 16 * n + 16];
    assert Blocks(mem, a, n + 1) == Blocks(mem, a, n) + b;
    LazyFoldSplit(h, r, Blocks(mem, a, n), b);
    MessageWordsValue(mem, a + 16 * n);
    assert b[..16] == b && b[16..] == [];
    assert LazyFold(LazyStep(LazyFold(h, r, Blocks(mem, a, n)), r, BlockNumber(b)), r, []) == LazyStep(LazyFold(h, r, Blocks(mem, a, n)), r, BlockNumber(b));
  }

  /** Loop state after k of n blocks. */
  ghost predicate AfterBlocks(m0: Machine, m: Machine, h: nat, r: nat, a: nat, n: nat, k: nat)
    requires k <= n && a + 16 * n <= WORD
  {
    && m.mem == m0.mem && m.frame == m0.frame && m.faulted == m0.faulted
    && Acc(m) == LazyFold(h, r, Blocks(m0.mem, a, k))
    && Key(m) == r && Clamped(m) && Val(m, 7) <= 4
    && Val(m, 1) == (a + 16 * k) % WORD
    && Val(m, 2) == n - k
  }

  lemma LoopStep(macc: bool, m0: Machine, m: Machine, h: nat, r: nat, a: nat, n: nat, k: nat)
    requires k < n && a + 16 * n <= WORD && AfterBlocks(m0, m, h, r, a, n, k)
    ensures AfterBlocks(m0, Run(BlockBody(macc), m), h, r, a, n, k + 1)
  {
    hide Run, BlockBody, LazyStep, LazyFold, MessageWords, Blocks;
    BlockExact(macc, m);
    OneMoreBlock(h, r, m0.mem, a, k);
  }

  lemma LoopStart(m: Machine, st: nat, a: nat, n: nat)
    requires GoodState(m.mem, st) && a + 16 * n <= WORD && n > 0
    requires Holds(m, m.mem, st) && Val(m, 1) == a && Val(m, 2) == n
    ensures AfterBlocks(m, m, StateAcc(m.mem, st), StateKey(m.mem, st), a, n, 0)
  {
    hide StateAcc, StateKey, Limbs4;
    assert Blocks(m.mem, a, 0) == [];
    assert LazyFold(Acc(m), Key(m), []) == Acc(m);
    AccLimb(m);
  }

  /** Running the emitted routine over n whole blocks, in either variant, leaves
      the lazy fold of those blocks in the state and touches nothing else. */
  method PolyBlocksCall(macc: bool, m0: Machine) returns (m: Machine)
    requires |m0.frame| == 3 && !m0.faulted && GoodState(m0.mem, m0.frame[0])
    requires m0.frame[1] as nat + 16 * (m0.frame[2] as nat) <= WORD
    ensures !m.faulted
    ensures m0.frame[2] == 0 ==> m.mem == m0.mem
    ensures var st := m0.frame[0];
      m0.frame[2] > 0 ==>
        StateUpdated(m0.mem, m.mem, st, LazyFold(StateAcc(m0.mem, st), StateKey(m0.mem, st),
                                                 Blocks(m0.mem, m0.frame[1], m0.frame[2])))
  {
    hide Run, Arguments, LoadState, StoreState, BlockBody, AfterBlocks, StateUpdated, LazyFold, StateAcc, StateKey, KeyClamped, Blocks, Holds;
    m := Run(Arguments(), m0);
    ArgumentsExact(m0);
    if m.r[2] != 0 {
      ghost var st, a, n := m0.frame[0], m0.frame[1], m0.frame[2];
      LoadStateExact(m);
      m := Run(LoadState(), m);
      ghost var start := m;
      ghost var h, r := StateAcc(m0.mem, st), StateKey(m0.mem, st);
      LoopStart(m, st, a, n);
      ghost var k := 0;
      LoopStep(macc, start, m, h, r, a, n, 0);
      m := Run(BlockBody(macc), m);
      k := 1;
      AfterKeeps(start, m, h, r, a, n, k);
      while m.r[2] != 0
        invariant 1 <= k <= n
        invariant AfterBlocks(start, m, h, r, a, n, k)
        invariant Val(m, 2) == n - k
        decreases n - k
      {
        LoopStep(macc, start, m, h, r, a, n, k);
        m := Run(BlockBody(macc), m);
        k := k + 1;
        AfterKeeps(start, m, h, r, a, n, k);
      }
      AfterKeeps(start, m, h, r, a, n, k);
      StoreStateExact(m);
      m := Run(StoreState(), m);
    }
  }

  lemma AfterKeeps(m0: Machine, m: Machine, h: nat, r: nat, a: nat, n: nat, k: nat)
    requires k <= n && a + 16 * n <= WORD && AfterBlocks(m0, m, h, r, a, n, k)
    ensures m.mem == m0.mem && m.frame == m0.frame && m.faulted == m0.faulted && Val(m, 2) == n - k
    ensures Acc(m) == LazyFold(h, r, Blocks(m0.mem, a, k))
  {
    hide LazyFold, Blocks;
  }

  // ----- the Go driver -----

  /** Upstream's portable update on the state at st: the same lazy fold, limb by
      limb, for a message of any length. */
  function GenericUpdate(mem: Memory, st: nat, h: nat): (mem': Memory)
    requires st + 40 <= WORD && h < ACC_LIMIT
    ensures StateUpdated(mem, mem', st, h)
  {
    var mem1 := StoreWord(mem, st, h % WORD);
    var mem2 := StoreWord(mem1, st + 4, h / W1 % WORD);
    var mem3 := StoreWord(mem2, st + 8, h / W2 % WORD);
    var mem4 := StoreWord(mem3, st + 12, h / W3 % WORD);
    var mem5 := StoreWord(mem4, st + 16, h / W4);
    var mem6 := StoreWord(mem5, st + 20, 0);
    GenericStored(mem, mem1, mem2, mem3, mem4, mem5, mem6, st, h);
    mem6
  }

  lemma LimbsOf(h: nat)
    requires h < ACC_LIMIT
    ensures h == h % WORD + W1 * (h / W1 % WORD) + W2 * (h / W2 % WORD) + W3 * (h / W3 % WORD) + W4 * (h / W4)
  {
    assert h / W1 / WORD == h / W2;
    assert h / W2 / WORD == h / W3;
    assert h / W3 / WORD == h / W4;
  }

  lemma GenericStored(mem: Memory, mem1: Memory, mem2: Memory, mem3: Memory, mem4: Memory, mem5: Memory, mem6: Memory, st: nat, h: nat)
    requires st + 40 <= WORD && h < ACC_LIMIT
    requires mem1 == StoreWord(mem, st, h % WORD) && mem2 == StoreWord(mem1, st + 4, h / W1 % WORD)
    requires mem3 == StoreWord(mem2, st + 8, h / W2 % WORD) && mem4 == StoreWord(mem3, st + 12, h / W3 % WORD)
    requires mem5 == StoreWord(mem4, st + 16, h / W4) && mem6 == StoreWord(mem5, st + 20, 0)
    ensures StateUpdated(mem, mem6, st, h)
  {
    hide StoreWord, LoadWord;
    StoreFrame(mem, st, h % WORD);
    StoreFrame(mem1, st + 4, h / W1 % WORD);
    StoreFrame(mem2, st + 8, h / W2 % WORD);
    StoreFrame(mem3, st + 12, h / W3 % WORD);
    StoreFrame(mem4, st + 16, h / W4);
    StoreFrame(mem5, st + 20, 0);
    LoadStored(mem, st, h % WORD);
    LoadElsewhere(mem1, mem6, st);
    LoadStored(mem1, st + 4, h / W1 % WORD);
    LoadElsewhere(mem2, mem6, st + 4);
    LoadStored(mem2, st + 8, h / W2 % WORD);
    LoadElsewhere(mem3, mem6, st + 8);
    LoadStored(mem3, st + 12, h / W3 % WORD);
    LoadElsewhere(mem4, mem6, st + 12);
    LoadStored(mem4, st + 16, h / W4);
    LoadElsewhere(mem5, mem6, st + 16);
    LoadStored(mem5, st + 20, 0);
    LimbsOf(h);
  }

  /** What the driver keeps: the fold of the bytes before pos, the rest untouched. */
  ghost predicate Progress(mem0: Memory, mem: Memory, st: nat, msg: nat, pos: nat)
    requires st + 40 <= WORD && msg <= pos <= WORD
  {
    && StateAcc(mem, st) == LazyFold(StateAcc(mem0, st), StateKey(mem0, st), mem0[msg..pos])
    && StateKey(mem, st) == StateKey(mem0, st)
    && GoodState(mem, st)
    && (forall i :: 0 <= i < WORD && !(st <= i < st + 24) ==> mem[i] == mem0[i])
  }

  lemma KeyInRange(mem: Memory, st: nat)
    requires st + 40 <= WORD && KeyClamped(mem, st)
    ensures StateKey(mem, st) < KEY_LIMIT
  {
    hide WordAt;
    assert WordAt(mem, st + 24 + 4 * 0) < 0x1000_0000 && WordAt(mem, st + 24 + 4 * 1) < 0x1000_0000;
    assert WordAt(mem, st + 24 + 4 * 2) < 0x1000_0000 && WordAt(mem, st + 24 + 4 * 3) < 0x1000_0000;
  }

  lemma ProgressStep(mem0: Memory, mem: Memory, mem': Memory, st: nat, msg: nat, pos: nat, n: nat)
    requires st + 40 <= WORD && msg <= pos <= pos + n <= WORD && (pos - msg) % 16 == 0
    requires pos + n <= st || st + 24 <= msg
    requires Progress(mem0, mem, st, msg, pos)
    requires StateUpdated(mem, mem', st, LazyFold(StateAcc(mem, st), StateKey(mem, st), mem[pos..pos + n]))
    ensures Progress(mem0, mem', st, msg, pos + n)
  {
    hide StateAcc, StateKey, LazyFold, WordAt;
    UpdateKeepsKey(mem, mem', st, StateAcc(mem', st));
    assert mem[pos..pos + n] == mem0[pos..pos + n];
    assert mem0[msg..pos + n] == mem0[msg..pos] + mem0[pos..pos + n];
    LazyFoldSplit(StateAcc(mem0, st), StateKey(mem0, st), mem0[msg..pos], mem0[pos..pos + n]);
    KeyInRange(mem, st);
    LazyFoldBound(StateAcc(mem, st), StateKey(mem, st), mem[pos..pos + n]);
  }

  lemma ProgressStart(mem: Memory, st: nat, msg: nat)
    requires GoodState(mem, st) && msg <= WORD
    ensures Progress(mem, mem, st, msg, msg)
  {
    assert mem[msg..msg] == [];
  }

  /** Whole blocks, at most one chunk. */
  method ChunkSize(left: nat) returns (n: nat)
    requires left >= 16
    ensures 0 < n <= left && n % 16 == 0 && n <= CHUNK && 16 * (n / 16) == n
    ensures left < CHUNK ==> left - n < 16
  {
    n := left - left % 16;
    if n > CHUNK {
      n := CHUNK;
    }
  }

  lemma BlocksAre(mem: Memory, a: nat, n: nat)
    requires n % 16 == 0 && a + n <= WORD
    ensures Blocks(mem, a, n / 16) == mem[a..a + n]
  {
  }

  /** Chunked processing with a portable tail is the one-pass fold: for every
      message length the state ends at the lazy fold of the whole message, hence
      at the RFC accumulator modulo 2^130 - 5, ready for the next call. */
  method UpdateMips(macc: bool, regs: Registers, mem0: Memory, st: nat, msg: nat, len: nat) returns (mem: Memory)
    requires GoodState(mem0, st) && msg + len <= WORD
    requires msg + len <= st || st + 24 <= msg
    ensures GoodState(mem, st) && StateKey(mem, st) == StateKey(mem0, st)
    ensures StateAcc(mem, st) == LazyFold(StateAcc(mem0, st), StateKey(mem0, st), mem0[msg..msg + len])
    ensures StateAcc(mem, st) % PRIME == RfcFold(StateAcc(mem0, st), StateKey(mem0, st), mem0[msg..msg + len]) % PRIME
    ensures forall i :: 0 <= i < WORD && !(st <= i < st + 24) ==> mem[i] == mem0[i]
  {
    hide StateAcc, StateKey, LazyFold, RfcFold, StateUpdated, KeyClamped, Blocks;
    mem := mem0;
    var pos, left := msg, len;
    ProgressStart(mem0, st, msg);
    while left >= 16
      invariant 0 <= left && pos + left == msg + len && msg <= pos && (pos - msg) % 16 == 0
      invariant Progress(mem0, mem, st, msg, pos)
    {
      var n := ChunkSize(left);
      var m := PolyBlocksCall(macc, Machine(regs, 0, 0, mem, [st, pos, n / 16], false));
      BlocksAre(mem, pos, n);
      ProgressStep(mem0, mem, m.mem, st, msg, pos, n);
      mem := m.mem;
      pos, left := pos + n, left - n;
    }
    if left != 0 {
      var h := LazyFold(StateAcc(mem, st), StateKey(mem, st), mem[pos..pos + left]);
      KeyInRange(mem, st);
      LazyFoldBound(StateAcc(mem, st), StateKey(mem, st), mem[pos..pos + left]);
      var mem' := GenericUpdate(mem, st, h);
      ProgressStep(mem0, mem, mem', st, msg, pos, left);
      mem := mem';
    }
    LazyFoldCongruent(StateAcc(mem0, st), StateAcc(mem0, st), StateKey(mem0, st), mem0[msg..msg + len]);
  }
}
