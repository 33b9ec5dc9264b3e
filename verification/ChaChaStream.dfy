/** Many blocks: the batch call, the Go driver that feeds it 16 KiB at a time,
    and the stream cipher of section 2.4 of RFC 8439 they implement. */
module ChaChaStream {
  import opened Words
  import opened Mips
  import opened ChaCha20
  import opened ChaChaBlocks

  const BLOCK := 64
  const MAX_BATCH := 16 * 1024

  // ----- the stream of RFC 8439, section 2.4 -----

  /** Byte j of the key stream whose first block has counter c. */
  function KeyByte(s: State, c: nat, j: nat): Byte {
    ByteOfWord(Block(s[12 := (c + j / 64) % WORD])[j % 64 / 4], j % 4)
  }

  function ByteXor(a: Byte, b: Byte): Byte {
    Pow2Table();
    XorBound(8, a, b);
    BitXor(a, b)
  }

  function StreamXor(s: State, c: nat, data: seq<Byte>): (out: seq<Byte>)
    ensures |out| == |data|
  {
    seq(|data|, j requires 0 <= j < |data| => ByteXor(data[j], KeyByte(s, c, j)))
  }

  /** Applying the cipher twice from the same counter is the identity. */
  lemma StreamXorTwice(s: State, c: nat, data: seq<Byte>)
    ensures StreamXor(s, c, StreamXor(s, c, data)) == data
  {
    hide KeyByte;
    forall j | 0 <= j < |data|
      ensures StreamXor(s, c, StreamXor(s, c, data))[j] == data[j]
    {
      XorTwice(data[j], KeyByte(s, c, j));
    }
  }

  lemma BlockShift(k: nat, j: nat)
    ensures (64 * k + j) / 64 == k + j / 64 && (64 * k + j) % 64 == j % 64 && (64 * k + j) % 4 == j % 4
  {
    ModUnique(64 * k + j, 64, k + j / 64, j % 64);
    ModUnique(64 * k + j, 4, 16 * k + j / 4, j % 4);
  }

  lemma KeyByteShift(s: State, c: nat, k: nat, j: nat)
    ensures KeyByte(s, c, 64 * k + j) == KeyByte(s, c + k, j)
  {
    hide Block, ByteOfWord;
    BlockShift(k, j);
  }

  /** Batches may be processed one after the other, the counter carried on. */
  lemma StreamXorSplit(s: State, c: nat, k: nat, a: seq<Byte>, b: seq<Byte>)
    requires |a| == 64 * k
    ensures StreamXor(s, c, a + b) == StreamXor(s, c, a) + StreamXor(s, c + k, b)
  {
    hide KeyByte;
    var whole, parts := StreamXor(s, c, a + b), StreamXor(s, c, a) + StreamXor(s, c + k, b);
    forall j | 0 <= j < |a + b|
      ensures whole[j] == parts[j]
    {
      if j >= |a| {
        KeyByteShift(s, c, k, j - |a|);
      }
    }
  }

  lemma CounterWraps(s: State, c: nat, data: seq<Byte>)
    ensures StreamXor(s, c % WORD, data) == StreamXor(s, c, data)
  {
    hide Block, ByteOfWord;
    forall j | 0 <= j < |data|
      ensures KeyByte(s, c % WORD, j) == KeyByte(s, c, j)
    {
      ModSum(c, j / 64, WORD);
    }
  }

  // ----- words and bytes -----

  lemma {:induction false} XorSplit(k: nat, a: nat, b: nat, c: nat, d: nat)
    requires a < Pow2(k) && c < Pow2(k)
    ensures BitXor(a + Pow2(k) * b, c + Pow2(k) * d) == BitXor(a, c) + Pow2(k) * BitXor(b, d)
  {
    if k == 0 {
      assert BitXor(0, 0) == 0;
    } else {
      var p := Pow2(k - 1);
      XorSplit(k - 1, a / 2, b, c / 2, d);
      XorSplitStep(p, a, b, c, d);
    }
  }

  lemma XorSplitStep(p: nat, a: nat, b: nat, c: nat, d: nat)
    requires BitXor(a / 2 + p * b, c / 2 + p * d) == BitXor(a / 2, c / 2) + p * BitXor(b, d)
    ensures BitXor(a + 2 * p * b, c + 2 * p * d) == BitXor(a, c) + 2 * p * BitXor(b, d)
  {
    hide BitXor;
    HalfOf(a, p, b);
    HalfOf(c, p, d);
    XorHalf(a + 2 * p * b, c + 2 * p * d);
    XorHalf(a, c);
    Doubled(p, BitXor(b, d));
  }

  lemma Doubled(p: nat, x: nat)
    ensures 2 * (p * x) == (2 * p) * x
  {
  }

  lemma HalfOf(a: nat, p: nat, b: nat)
    ensures (a + 2 * p * b) / 2 == a / 2 + p * b && (a + 2 * p * b) % 2 == a % 2
  {
    assert 2 * p * b == 2 * (p * b);
  }

  lemma XorHalf(a: nat, b: nat)
    ensures BitXor(a, b) == 2 * BitXor(a / 2, b / 2) + Bit(a % 2 != b % 2)
  {
  }

  /** XOR of words is XOR of their bytes. */
  lemma WordXorBytes(x: Word, y: Word, k: nat)
    requires k < 4
    ensures ByteOfWord(WordXor(x, y), k) == ByteXor(ByteOfWord(x, k), ByteOfWord(y, k))
  {
    hide BitXor;
    var x0, x1, x2, x3 := ByteOfWord(x, 0), ByteOfWord(x, 1), ByteOfWord(x, 2), ByteOfWord(x, 3);
    var y0, y1, y2, y3 := ByteOfWord(y, 0), ByteOfWord(y, 1), ByteOfWord(y, 2), ByteOfWord(y, 3);
    WordBytesRoundTrip(x);
    WordBytesRoundTrip(y);
    XorOfBytes(x0, x1, x2, x3, y0, y1, y2, y3);
    BytesWordRoundTrip(ByteXor(x0, y0), ByteXor(x1, y1), ByteXor(x2, y2), ByteXor(x3, y3));
  }

  lemma XorOfBytes(x0: Byte, x1: Byte, x2: Byte, x3: Byte, y0: Byte, y1: Byte, y2: Byte, y3: Byte)
    ensures WordXor(WordOfBytes(x0, x1, x2, x3), WordOfBytes(y0, y1, y2, y3))
         == WordOfBytes(ByteXor(x0, y0), ByteXor(x1, y1), ByteXor(x2, y2), ByteXor(x3, y3))
  {
    hide BitXor, Pow2;
    Pow2Table();
    var u2, v2 := x2 as nat + 0x100 * (x3 as nat), y2 as nat + 0x100 * (y3 as nat);
    var u1, v1 := x1 as nat + 0x100 * u2, y1 as nat + 0x100 * v2;
    XorSplit(8, x0, u1, y0, v1);
    XorSplit(8, x1, u2, y1, v2);
    XorSplit(8, x2, x3, y2, y3);
  }

  lemma ByteOfLoad(mem: Memory, a: nat, k: nat)
    requires a + 4 <= WORD && k < 4
    ensures ByteOfWord(LoadWord(mem, a), k) == mem[a + k]
  {
    BytesWordRoundTrip(mem[a], mem[a + 1], mem[a + 2], mem[a + 3]);
  }

  /** A ciphered block, byte by byte. */
  lemma BlockBytes(mem: Memory, mem': Memory, d: nat, s: nat, ks: State, j: nat)
    requires d + 64 <= WORD && s + 64 <= WORD && CipheredBlock(mem, mem', d, s, ks) && j < 64
    ensures mem'[d + j] == ByteXor(mem[s + j], ByteOfWord(ks[j / 4], j % 4))
  {
    hide LoadWord, WordXor, ByteOfWord, ByteXor;
    var i, k := j / 4, j % 4;
    assert WordAt(mem', d + 4 * i) == WordXor(LoadWord(mem, s + 4 * i), ks[i]);
    ByteOfLoad(mem', d + 4 * i, k);
    ByteOfLoad(mem, s + 4 * i, k);
    WordXorBytes(LoadWord(mem, s + 4 * i), ks[i], k);
    assert 4 * i + k == j;
  }

  // ----- the batch call -----

  /** mem is mem0 with n blocks of src xored into dst, counter from c. */
  ghost predicate Ciphered(mem0: Memory, mem: Memory, dst: nat, src: nat, s: State, c: nat, n: nat)
    requires dst + 64 * n <= WORD && src + 64 * n <= WORD
  {
    && (forall j :: 0 <= j < 64 * n ==> mem[dst + j] == ByteXor(mem0[src + j], KeyByte(s, c, j)))
    && (forall j :: 0 <= j < WORD && !(dst <= j < dst + 64 * n) ==> mem[j] == mem0[j])
  }

  lemma InputKept(mem0: Memory, mem: Memory, st: nat, c: Word, c': Word)
    requires st + 64 <= WORD && (forall j :: st <= j < st + 64 ==> mem[j] == mem0[j])
    ensures Input(mem, st, c') == Input(mem0, st, c)[12 := c']
  {
    hide LoadWord;
    forall i | 0 <= i < 16
      ensures Input(mem, st, c')[i] == Input(mem0, st, c)[12 := c'][i]
    {
      LoadElsewhere(mem0, mem, st + 4 * i);
    }
  }

  lemma KeyByteInBlock(s: State, c: nat, n: nat, j: nat)
    requires j < 64
    ensures KeyByte(s, c, 64 * n + j) == ByteOfWord(Block(s[12 := (c + n) % WORD])[j / 4], j % 4)
  {
    hide Block, ByteOfWord;
    BlockShift(n, j);
  }

  lemma CipheredNext(mem0: Memory, mem: Memory, mem': Memory, st: nat, dst: nat, src: nat, c: Word, n: nat, total: nat)
    requires n < total && dst + 64 * total <= WORD && src + 64 * total <= WORD && st + 64 <= WORD
    requires Separate(st, dst, src, 64 * total)
    requires Ciphered(mem0, mem, dst, src, Input(mem0, st, c), c, n)
    requires CipheredBlock(mem, mem', dst + 64 * n, src + 64 * n, Block(Input(mem, st, (c + n) % WORD)))
    ensures Ciphered(mem0, mem', dst, src, Input(mem0, st, c), c, n + 1)
  {
    hide KeyByte, Block, ByteXor, ByteOfWord, Input;
    var s := Input(mem0, st, c);
    InputKept(mem0, mem, st, c, (c + n) % WORD);
    var ks := Block(s[12 := (c + n) % WORD]);
    forall j | 0 <= j < 64 * (n + 1)
      ensures mem'[dst + j] == ByteXor(mem0[src + j], KeyByte(s, c, j))
    {
      if j >= 64 * n {
        BlockBytes(mem, mem', dst + 64 * n, src + 64 * n, ks, j - 64 * n);
        KeyByteInBlock(s, c, n, j - 64 * n);
      }
    }
  }

  lemma CipheredNone(mem: Memory, dst: nat, src: nat, s: State, c: nat)
    requires dst <= WORD && src <= WORD
    ensures Ciphered(mem, mem, dst, src, s, c, 0)
  {
  }

  function EntryCode(): seq<Instr> {
    [Larg(0, 17), Larg(1, 18), Larg(2, 19)] + [Larg(3, 24)]
  }

  lemma EntryExact(m: Machine)
    requires |m.frame| == 4
    ensures var m' := Run(EntryCode(), m);
      && m'.r[17] == m.frame[0] && m'.r[18] == m.frame[1] && m'.r[19] == m.frame[2] && m'.r[24] == m.frame[3]
      && m'.mem == m.mem && m'.frame == m.frame && m'.faulted == m.faulted
  {
    hide Run;
    RunAppend([Larg(0, 17), Larg(1, 18), Larg(2, 19)], [Larg(3, 24)], m);
    RunThree(Larg(0, 17), Larg(1, 18), Larg(2, 19), m);
    var m1 := SetReg(SetReg(SetReg(m, 17, m.frame[0]), 18, m.frame[1]), 19, m.frame[2]);
    assert m1 == Step(Larg(2, 19), Step(Larg(1, 18), Step(Larg(0, 17), m)));
    RunOne(Larg(3, 24), m1);
  }

  /** Loop state after k of n blocks. */
  ghost predicate AfterBlocks(m0: Machine, m: Machine, st: nat, dst: nat, src: nat, c: Word, n: nat, k: nat)
    requires k <= n && dst + 64 * n <= WORD && src + 64 * n <= WORD && st + 64 <= WORD
  {
    && Ciphered(m0.mem, m.mem, dst, src, Input(m0.mem, st, c), c, k)
    && Val(m, 17) == st && Val(m, 18) == (dst + 64 * k) % WORD && Val(m, 19) == (src + 64 * k) % WORD
    && Val(m, 25) == (c + k) % WORD && Val(m, 24) == n - k && m.faulted == m0.faulted
  }

  lemma BlockReady(m0: Machine, m: Machine, st: nat, dst: nat, src: nat, c: Word, n: nat, k: nat)
    requires k < n && st % 4 == 0 && st + 64 <= WORD && dst + 64 * n <= WORD && src + 64 * n <= WORD
    requires Separate(st, dst, src, 64 * n) && AfterBlocks(m0, m, st, dst, src, c, n, k)
    ensures Pointers(m) && Val(m, 18) == dst + 64 * k && Val(m, 19) == src + 64 * k
    ensures Separate(Val(m, 17), Val(m, 18), Val(m, 19), 64)
  {
    hide Ciphered, Input;
  }

  lemma Moves(v: Word, base: nat, k: nat, step: Word)
    requires v == (base + k) % WORD
    ensures AddWord(v, step) == (base + (k + step)) % WORD
  {
    ModSum(base + k, step, WORD);
  }

  lemma CountsDown(v: Word, left: nat)
    requires v == left && left > 0
    ensures SubWord(v, 1) == left - 1
  {
  }

  lemma BlockAfter(m0: Machine, m: Machine, m': Machine, st: nat, dst: nat, src: nat, c: Word, n: nat, k: nat)
    requires k < n && st % 4 == 0 && st + 64 <= WORD && dst + 64 * n <= WORD && src + 64 * n <= WORD
    requires Separate(st, dst, src, 64 * n) && AfterBlocks(m0, m, st, dst, src, c, n, k)
    requires Pointers(m) && BlockDone(m, m')
    ensures AfterBlocks(m0, m', st, dst, src, c, n, k + 1)
  {
    hide Ciphered, Input, Block, CipheredBlock, AddWord, SubWord, Pointers, Separate;
    BlockReady(m0, m, st, dst, src, c, n, k);
    Moves(m.r[18], dst, 64 * k, 64);
    Moves(m.r[19], src, 64 * k, 64);
    Moves(m.r[25], c, k, 1);
    CountsDown(m.r[24], n - k);
    CipheredNext(m0.mem, m.mem, m'.mem, st, dst, src, c, k, n);
  }

  lemma AfterNone(m0: Machine, m: Machine, st: nat, dst: nat, src: nat, c: Word, n: nat)
    requires dst + 64 * n <= WORD && src + 64 * n <= WORD && st + 64 <= WORD && n > 0
    requires m.mem == m0.mem && m.faulted == m0.faulted
    requires Val(m, 17) == st && Val(m, 18) == dst && Val(m, 19) == src && Val(m, 24) == n && m.r[25] == c
    ensures AfterBlocks(m0, m, st, dst, src, c, n, 0)
  {
    hide Input, KeyByte;
    CipheredNone(m0.mem, dst, src, Input(m0.mem, st, c), c);
  }

  /** The emitted batch routine: block k of the batch is xored with the RFC key
      stream block of counter c + k mod 2^32, where c is word 12 of the state. */
  method XorBlocksCall(m0: Machine) returns (m: Machine)
    requires |m0.frame| == 4 && !m0.faulted
    requires m0.frame[0] % 4 == 0 && m0.frame[0] as nat + 64 <= WORD
    requires m0.frame[1] as nat + 64 * (m0.frame[3] as nat) <= WORD && m0.frame[2] as nat + 64 * (m0.frame[3] as nat) <= WORD
    requires Separate(m0.frame[0], m0.frame[1], m0.frame[2], 64 * (m0.frame[3] as nat))
    ensures !m.faulted
    ensures var st, c := m0.frame[0], LoadWord(m0.mem, m0.frame[0] as nat + 48);
      Ciphered(m0.mem, m.mem, m0.frame[1], m0.frame[2], Input(m0.mem, st, c), c, m0.frame[3])
  {
    hide Run, EntryCode, AfterBlocks, Ciphered, Input, LoadWord, BlockDone;
    EntryExact(m0);
    m := Run(EntryCode(), m0);
    ghost var st, dst, src, n := m0.frame[0], m0.frame[1], m0.frame[2], m0.frame[3];
    ghost var c := LoadWord(m0.mem, m0.frame[0] as nat + 48);
    if m.r[24] == 0 {
      CipheredNone(m0.mem, dst, src, Input(m0.mem, st, c), c);
      return;
    }
    RunLw(48, 17, 25, m);
    m := Run([Lw(48, 17, 25)], m);
    AfterNone(m0, m, st, dst, src, c, n);
    ghost var k := 0;
    BlockReady(m0, m, st, dst, src, c, n, k);
    var m1 := XorBlock(m);
    BlockAfter(m0, m, m1, st, dst, src, c, n, k);
    m, k := m1, 1;
    AfterCount(m0, m, st, dst, src, c, n, k);
    while m.r[24] != 0
      invariant 1 <= k <= n && AfterBlocks(m0, m, st, dst, src, c, n, k) && Val(m, 24) == n - k
      decreases n - k
    {
      BlockReady(m0, m, st, dst, src, c, n, k);
      m1 := XorBlock(m);
      BlockAfter(m0, m, m1, st, dst, src, c, n, k);
      m, k := m1, k + 1;
      AfterCount(m0, m, st, dst, src, c, n, k);
    }
    AfterCount(m0, m, st, dst, src, c, n, k);
  }

  lemma AfterCount(m0: Machine, m: Machine, st: nat, dst: nat, src: nat, c: Word, n: nat, k: nat)
    requires k <= n && dst + 64 * n <= WORD && src + 64 * n <= WORD && st + 64 <= WORD
    requires AfterBlocks(m0, m, st, dst, src, c, n, k)
    ensures Val(m, 24) == n - k && m.faulted == m0.faulted
    ensures Ciphered(m0.mem, m.mem, dst, src, Input(m0.mem, st, c), c, k)
  {
    hide Ciphered, Input;
  }

  // ----- the Go driver -----

  /** The input state of section 2.3 of RFC 8439. */
  function Matrix(key: seq<Word>, counter: Word, nonce: seq<Word>): State
    requires |key| == 8 && |nonce| == 3
  {
    [0x6170_7865, 0x3320_646e, 0x7962_2d32, 0x6b20_6574] + key + [counter] + nonce
  }

  const SIGMA := "expand 32-byte k"

  /** Word i of the input state, as section 2.3 of RFC 8439 lists them. */
  function RfcWord(key: seq<Word>, counter: Word, nonce: seq<Word>, i: nat): int
    requires |key| == 8 && |nonce| == 3 && i < 16
  {
    if i < 4 then
      SIGMA[4 * i] as int + 0x100 * SIGMA[4 * i + 1] as int + 0x1_0000 * SIGMA[4 * i + 2] as int + 0x100_0000 * SIGMA[4 * i + 3] as int
    else if i < 12 then key[i - 4]
    else if i == 12 then counter
    else nonce[i - 13]
  }

  ghost predicate IsInput(s: State, key: seq<Word>, counter: Word, nonce: seq<Word>)
    requires |key| == 8 && |nonce| == 3
  {
    forall i :: 0 <= i < 16 ==> s[i] == RfcWord(key, counter, nonce, i)
  }

  /** The driver's state is the RFC's, word by word, and nothing else is. */
  lemma MatrixIsInput(key: seq<Word>, counter: Word, nonce: seq<Word>, s: State)
    requires |key| == 8 && |nonce| == 3
    ensures IsInput(s, key, counter, nonce) <==> s == Matrix(key, counter, nonce)
  {
    var m := Matrix(key, counter, nonce);
    forall i | 0 <= i < 16
      ensures m[i] == RfcWord(key, counter, nonce, i)
    {
      if i < 4 {
        SigmaWords(i);
      }
    }
    if IsInput(s, key, counter, nonce) {
      assert forall i :: 0 <= i < 16 ==> s[i] == m[i];
    }
  }

  lemma InputExists(key: seq<Word>, counter: Word, nonce: seq<Word>)
    requires |key| == 8 && |nonce| == 3
    ensures IsInput(Matrix(key, counter, nonce), key, counter, nonce)
  {
    MatrixIsInput(key, counter, nonce, Matrix(key, counter, nonce));
  }

  lemma SigmaWords(i: nat)
    requires i < 4
    ensures [0x6170_7865, 0x3320_646e, 0x7962_2d32, 0x6b20_6574][i]
         == SIGMA[4 * i] as int + 0x100 * SIGMA[4 * i + 1] as int + 0x1_0000 * SIGMA[4 * i + 2] as int + 0x100_0000 * SIGMA[4 * i + 3] as int
  {
  }

  /** Store a state at st, first n words. */
  function StoreVec(mem: Memory, st: nat, s: State, n: nat): Memory
    requires n <= 16 && st + 64 <= WORD
  {
    if n == 0 then mem else StoreWord(StoreVec(mem, st, s, n - 1), st + 4 * n - 4, s[n - 1])
  }

  lemma {:induction false} StoreVecExact(mem: Memory, st: nat, s: State, n: nat)
    requires n <= 16 && st + 64 <= WORD
    ensures var mem' := StoreVec(mem, st, s, n);
      && (forall i :: 0 <= i < n ==> WordAt(mem', st + 4 * i) == s[i])
      && (forall j :: 0 <= j < WORD && !(st <= j < st + 4 * n) ==> mem'[j] == mem[j])
  {
    hide LoadWord, StoreWord;
    if n > 0 {
      StoreVecExact(mem, st, s, n - 1);
      var mem1, mem' := StoreVec(mem, st, s, n - 1), StoreVec(mem, st, s, n);
      StoreFrame(mem1, st + 4 * n - 4, s[n - 1]);
      LoadStored(mem1, st + 4 * n - 4, s[n - 1]);
      forall i | 0 <= i < n - 1
        ensures WordAt(mem', st + 4 * i) == WordAt(mem1, st + 4 * i)
      {
        LoadElsewhere(mem1, mem', st + 4 * i);
      }
    }
  }

  lemma StoredInput(mem: Memory, st: nat, s: State)
    requires st + 64 <= WORD
    ensures var mem' := StoreVec(mem, st, s, 16);
      && Input(mem', st, s[12]) == s && LoadWord(mem', st + 48) == s[12]
      && (forall j :: 0 <= j < WORD && !(st <= j < st + 64) ==> mem'[j] == mem[j])
  {
    hide LoadWord, StoreVec;
    StoreVecExact(mem, st, s, 16);
    var mem' := StoreVec(mem, st, s, 16);
    assert WordAt(mem', st + 4 * 12) == s[12];
    forall i | 0 <= i < 16
      ensures Input(mem', st, s[12])[i] == s[i]
    {
      assert WordAt(mem', st + 4 * i) == s[i];
    }
  }

  /** Storing a new counter word moves the input state to that counter. */
  lemma CounterStored(mem: Memory, st: nat, c: Word, c': Word)
    requires st + 64 <= WORD
    ensures var mem' := StoreWord(mem, st + 48, c');
      && Input(mem', st, c') == Input(mem, st, c)[12 := c'] && LoadWord(mem', st + 48) == c'
      && (forall j :: 0 <= j < WORD && !(st <= j < st + 64) ==> mem'[j] == mem[j])
  {
    hide LoadWord, StoreWord;
    var mem' := StoreWord(mem, st + 48, c');
    StoreFrame(mem, st + 48, c');
    LoadStored(mem, st + 48, c');
    forall i | 0 <= i < 16
      ensures Input(mem', st, c')[i] == Input(mem, st, c)[12 := c'][i]
    {
      if i != 12 {
        LoadElsewhere(mem, mem', st + 4 * i);
      }
    }
  }

  /** After pos bytes: the prefix is ciphered, the stored state is at its counter. */
  ghost predicate StreamDone(mem0: Memory, mem: Memory, st: nat, dst: nat, src: nat, s: State, pos: nat)
    requires st + 64 <= WORD && dst + pos <= WORD && src + pos <= WORD
  {
    var c := (s[12] + pos / 64) % WORD;
    && mem[dst..dst + pos] == StreamXor(s, s[12], mem0[src..src + pos])
    && (forall j :: 0 <= j < WORD && !(dst <= j < dst + pos) && !(st <= j < st + 64) ==> mem[j] == mem0[j])
    && Input(mem, st, c) == s[12 := c] && LoadWord(mem, st + 48) == c
  }

  /** The state bytes are apart from both buffers. */
  ghost predicate Apart3(st: nat, dst: nat, src: nat, len: nat) {
    Separate(st, dst, src, len) && (src + len <= st || st + 64 <= src)
  }

  lemma CipheredBytes(mem: Memory, mem': Memory, dst: nat, src: nat, s: State, c: nat, n: nat)
    requires dst + 64 * n <= WORD && src + 64 * n <= WORD && Ciphered(mem, mem', dst, src, s, c, n)
    ensures mem'[dst..dst + 64 * n] == StreamXor(s, c, mem[src..src + 64 * n])
  {
    hide KeyByte, ByteXor;
    var out := StreamXor(s, c, mem[src..src + 64 * n]);
    forall j | 0 <= j < 64 * n
      ensures mem'[dst..dst + 64 * n][j] == out[j]
    {
      assert mem'[dst + j] == ByteXor(mem[src + j], KeyByte(s, c, j));
    }
  }

  lemma StateIrrelevantCounter(s: State, c: Word, d: nat, data: seq<Byte>)
    ensures StreamXor(s[12 := c], d, data) == StreamXor(s, d, data)
  {
    hide Block, ByteOfWord;
    forall j | 0 <= j < |data|
      ensures KeyByte(s[12 := c], d, j) == KeyByte(s, d, j)
    {
      assert s[12 := c][12 := (d + j / 64) % WORD] == s[12 := (d + j / 64) % WORD];
    }
  }

  lemma CipheredPrefix(mem: Memory, mem1: Memory, dst: nat, src: nat, s: State, c: nat, n: nat, pos: nat)
    requires dst + pos + 64 * n <= WORD && src + pos + 64 * n <= WORD && Ciphered(mem, mem1, dst + pos, src + pos, s, c, n)
    ensures mem1[dst..dst + pos] == mem[dst..dst + pos]
  {
    hide KeyByte, ByteXor;
  }

  lemma BatchBytes(mem0: Memory, mem: Memory, mem1: Memory, st: nat, dst: nat, src: nat, s: State, pos: nat, n: nat, len: nat)
    requires pos + 64 * n <= len && dst + len <= WORD && src + len <= WORD && st + 64 <= WORD && pos % 64 == 0
    requires Apart3(st, dst, src, len) && StreamDone(mem0, mem, st, dst, src, s, pos)
    requires var c := (s[12] + pos / 64) % WORD; Ciphered(mem, mem1, dst + pos, src + pos, s[12 := c], c, n)
    ensures mem1[dst..dst + pos + 64 * n] == StreamXor(s, s[12], mem0[src..src + pos + 64 * n])
  {
    hide Input, StreamXor, KeyByte, ByteXor, LoadWord, Ciphered;
    var c := (s[12] + pos / 64) % WORD;
    var a, b := mem0[src..src + pos], mem0[src + pos..src + pos + 64 * n];
    CipheredBytes(mem, mem1, dst + pos, src + pos, s[12 := c], c, n);
    assert mem[src + pos..src + pos + 64 * n] == b;
    StateIrrelevantCounter(s, c, c, b);
    CounterWraps(s, s[12] + pos / 64, b);
    StreamXorSplit(s, s[12], pos / 64, a, b);
    assert mem0[src..src + pos + 64 * n] == a + b;
    CipheredPrefix(mem, mem1, dst, src, s[12 := c], c, n, pos);
    assert mem1[dst..dst + pos + 64 * n] == mem1[dst..dst + pos] + mem1[dst + pos..dst + pos + 64 * n];
  }

  lemma BatchNext(mem0: Memory, mem: Memory, mem1: Memory, st: nat, dst: nat, src: nat, s: State, pos: nat, n: nat, len: nat)
    requires pos + 64 * n <= len && dst + len <= WORD && src + len <= WORD && st + 64 <= WORD && pos % 64 == 0
    requires Apart3(st, dst, src, len) && StreamDone(mem0, mem, st, dst, src, s, pos)
    requires var c := (s[12] + pos / 64) % WORD; Ciphered(mem, mem1, dst + pos, src + pos, s[12 := c], c, n)
    ensures var c := (s[12] + pos / 64) % WORD;
      StreamDone(mem0, StoreWord(mem1, st + 48, (c + n) % WORD), st, dst, src, s, pos + 64 * n)
  {
    hide Input, StreamXor, KeyByte, ByteXor, LoadWord, StoreWord;
    var c := (s[12] + pos / 64) % WORD;
    var c' := (s[12] + (pos + 64 * n) / 64) % WORD;
    BatchCounter(s[12], pos, n);
    BatchBytes(mem0, mem, mem1, st, dst, src, s, pos, n, len);
    InputKept(mem, mem1, st, c, c);
    CounterStored(mem1, st, c, c');
    var mem2 := StoreWord(mem1, st + 48, c');
    assert mem2[dst..dst + pos + 64 * n] == mem1[dst..dst + pos + 64 * n];
    assert s[12 := c][12 := c][12 := c'] == s[12 := c'];
  }

  lemma BatchCounter(c: nat, pos: nat, n: nat)
    requires pos % 64 == 0
    ensures ((c + pos / 64) % WORD + n) % WORD == (c + (pos + 64 * n) / 64) % WORD
  {
    assert (pos + 64 * n) / 64 == pos / 64 + n;
    ModSum(c + pos / 64, n, WORD);
  }

  /** Whole blocks, at most one batch. */
  method BatchSize(left: nat) returns (n: nat, blocks: nat)
    requires left > 0 && left % 64 == 0
    ensures 0 < n <= left && n == 64 * blocks && n <= MAX_BATCH && (n == left || n == MAX_BATCH)
  {
    n := if left < MAX_BATCH then left else MAX_BATCH;
    blocks := n / 64;
  }

  /** One batch, and the new counter written to the state words. */
  method RunBatch(ghost mem0: Memory, mem: Memory, regs: Registers, st: nat, dst: nat, src: nat, ghost s: State, pos: nat, blocks: nat, c: Word, ghost len: nat)
    returns (mem': Memory, c': Word)
    requires st % 4 == 0 && st + 64 <= WORD && dst + len <= WORD && src + len <= WORD && Apart3(st, dst, src, len)
    requires pos % 64 == 0 && 0 < blocks && pos + 64 * blocks <= len && 64 * blocks <= MAX_BATCH
    requires StreamDone(mem0, mem, st, dst, src, s, pos) && c == (s[12] + pos / 64) % WORD
    ensures StreamDone(mem0, mem', st, dst, src, s, pos + 64 * blocks) && c' == (s[12] + (pos + 64 * blocks) / 64) % WORD
  {
    hide Input, StreamXor, LoadWord, StoreWord, Ciphered, StreamDone, StoreVec;
    StreamState(mem0, mem, st, dst, src, s, pos);
    var m := XorBlocksCall(Machine(regs, 0, 0, mem, [st, dst + pos, src + pos, blocks], false));
    BatchNext(mem0, mem, m.mem, st, dst, src, s, pos, blocks, len);
    BatchCounter(s[12], pos, blocks);
    c' := (c + blocks) % WORD;
    mem' := StoreWord(m.mem, st + 48, c');
  }

  /** The cipher object of the overlay: key, counter and nonce words. */
  class Cipher {
    const key: seq<Word>
    const nonce: seq<Word>
    var counter: Word

    ghost predicate Valid() {
      |key| == 8 && |nonce| == 3
    }

    constructor (key: seq<Word>, nonce: seq<Word>, counter: Word)
      requires |key| == 8 && |nonce| == 3
      ensures Valid() && this.key == key && this.nonce == nonce && this.counter == counter
    {
      this.key := key;
      this.nonce := nonce;
      this.counter := counter;
    }

    /** Whole blocks of src go to dst, xored with the RFC stream from the current
        counter; the counter moves on by the number of blocks. A length that is
        not whole blocks, or two different lengths, panic and change nothing. */
    method XorKeyStreamBlocks(mem0: Memory, dst: nat, dstLen: nat, src: nat, srcLen: nat, st: nat, regs: Registers)
      returns (ok: bool, mem: Memory)
      requires Valid() && st % 4 == 0 && st + 64 <= WORD && dst + dstLen <= WORD && src + srcLen <= WORD
      requires dstLen == srcLen ==> Apart3(st, dst, src, srcLen)
      modifies this`counter
      ensures ok <==> dstLen == srcLen && srcLen % BLOCK == 0
      ensures !ok ==> mem == mem0 && counter == old(counter)
      ensures ok ==> forall s: State :: IsInput(s, key, old(counter), nonce) ==>
        mem[dst..dst + dstLen] == StreamXor(s, old(counter), mem0[src..src + srcLen])
      ensures exists s: State :: IsInput(s, key, old(counter), nonce)
      ensures ok ==> counter == (old(counter) + srcLen / BLOCK) % WORD
      ensures forall j :: 0 <= j < WORD && !(dst <= j < dst + dstLen) && !(st <= j < st + 64) ==> mem[j] == mem0[j]
    {
      hide Input, StreamXor, LoadWord, StoreWord, Ciphered, StreamDone, StoreVec, IsInput;
      mem := mem0;
      InputExists(key, counter, nonce);
      ok := dstLen == srcLen && srcLen % BLOCK == 0;
      if !ok {
        return;
      }
      var s := Matrix(key, counter, nonce);
      forall t: State
        ensures IsInput(t, key, counter, nonce) <==> t == s
      {
        MatrixIsInput(key, counter, nonce, t);
      }
      StoredInput(mem, st, s);
      mem := StoreVec(mem, st, s, 16);
      StreamStart(mem0, mem, st, dst, src, s);
      var pos, left, c := 0, srcLen, counter;
      while left > 0
        invariant 0 <= left && pos + left == srcLen && pos % 64 == 0 && left % 64 == 0
        invariant StreamDone(mem0, mem, st, dst, src, s, pos)
        invariant c == (s[12] + pos / 64) % WORD
        decreases left
      {
        var n, blocks := BatchSize(left);
        mem, c := RunBatch(mem0, mem, regs, st, dst, src, s, pos, blocks, c, srcLen);
        pos, left := pos + n, left - n;
      }
      StreamState(mem0, mem, st, dst, src, s, pos);
      counter := c;
    }
  }

  lemma StreamStart(mem0: Memory, mem: Memory, st: nat, dst: nat, src: nat, s: State)
    requires st + 64 <= WORD && dst <= WORD && src <= WORD
    requires Input(mem, st, s[12]) == s && LoadWord(mem, st + 48) == s[12]
    requires forall j :: 0 <= j < WORD && !(st <= j < st + 64) ==> mem[j] == mem0[j]
    ensures StreamDone(mem0, mem, st, dst, src, s, 0)
  {
    hide Input, LoadWord, KeyByte;
    assert mem[dst..dst + 0] == [] && mem0[src..src + 0] == [];
    assert s[12 := s[12]] == s;
  }

  lemma StreamState(mem0: Memory, mem: Memory, st: nat, dst: nat, src: nat, s: State, pos: nat)
    requires st + 64 <= WORD && dst + pos <= WORD && src + pos <= WORD && StreamDone(mem0, mem, st, dst, src, s, pos)
    ensures var c := (s[12] + pos / 64) % WORD;
      && Input(mem, st, c) == s[12 := c] && LoadWord(mem, st + 48) == c
      && mem[dst..dst + pos] == StreamXor(s, s[12], mem0[src..src + pos])
      && (forall j :: 0 <= j < WORD && !(dst <= j < dst + pos) && !(st <= j < st + 64) ==> mem[j] == mem0[j])
  {
    hide Input, LoadWord, StreamXor;
  }
}
