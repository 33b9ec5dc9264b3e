/** The ChaCha20 block function of section 2.3 of RFC 8439, and the interleaved
    order in which the MIPS generator emits its quarter rounds. */
module ChaCha20 {
  import opened Words
  import opened Mips

  type State = s: seq<Word> | |s| == 16 witness seq(16, _ => 0)

  // ----- RFC 8439, sections 2.1 to 2.3 -----

  function RotateLeft(k: nat, x: Word): Word
    requires 0 < k < 32
  {
    RotateRight(32 - k, x)
  }

  /** A rotation moves the top k bits to the bottom. */
  lemma RotateLeftValue(k: nat, x: Word)
    requires 0 < k < 32
    ensures RotateLeft(k, x) == Product(x, Pow2(k)) % WORD + x / Pow2(32 - k)
  {
    var p, q := Pow2(32 - k), Pow2(k);
    Pow2Complement(k);
    RotateProduct(x, p, q);
  }

  lemma RotateProduct(x: nat, p: nat, q: nat)
    requires p > 0 && q > 0 && q * p == WORD && x < WORD
    ensures Product(x, q) % WORD == x % p * q
  {
    var hi, lo := x / p, x % p;
    assert x == hi * p + lo;
    assert x * q == hi * WORD + lo * q by {
      assert (hi * p + lo) * q == hi * (p * q) + lo * q;
      assert p * q == q * p;
    }
    assert lo * q < WORD by {
      MulMonotone(lo, p - 1, q);
      assert (p - 1) * q == p * q - q;
      assert p * q == q * p;
    }
    ModUnique(x * q, WORD, hi, lo * q);
  }

  datatype Quad = Quad(a: Word, b: Word, c: Word, d: Word)

  function HalfQuarter(q: Quad, r1: nat, r2: nat): Quad
    requires 0 < r1 < 32 && 0 < r2 < 32
  {
    var a := AddWord(q.a, q.b);
    var d := RotateLeft(r1, WordXor(q.d, a));
    var c := AddWord(q.c, d);
    var b := RotateLeft(r2, WordXor(q.b, c));
    Quad(a, b, c, d)
  }

  function QuarterRound(q: Quad): Quad {
    HalfQuarter(HalfQuarter(q, 16, 12), 8, 7)
  }

  /** Four state positions. */
  datatype Places = Places(a: nat, b: nat, c: nat, d: nat)

  predicate Proper(p: Places) {
    && p.a < 16 && p.b < 16 && p.c < 16 && p.d < 16
    && p.a != p.b && p.a != p.c && p.a != p.d && p.b != p.c && p.b != p.d && p.c != p.d
  }

  function Get(s: State, p: Places): Quad
    requires Proper(p)
  {
    Quad(s[p.a], s[p.b], s[p.c], s[p.d])
  }

  function Put(s: State, p: Places, q: Quad): State
    requires Proper(p)
  {
    s[p.a := q.a][p.b := q.b][p.c := q.c][p.d := q.d]
  }

  function QuarterAt(s: State, p: Places): State
    requires Proper(p)
  {
    Put(s, p, QuarterRound(Get(s, p)))
  }

  datatype Group = Group(w: Places, x: Places, y: Places, z: Places)

  /** Quarter q of a column round: one column of the four by four matrix. */
  function ColumnPlaces(q: nat): Places
    requires q < 4
  {
    Places(q, q + 4, q + 8, q + 12)
  }

  /** Quarter q of a diagonal round: one column to the right in each row below. */
  function DiagonalPlaces(q: nat): Places
    requires q < 4
  {
    Places(q, 4 + (q + 1) % 4, 8 + (q + 2) % 4, 12 + (q + 3) % 4)
  }

  const RFC_COLUMNS := Group(ColumnPlaces(0), ColumnPlaces(1), ColumnPlaces(2), ColumnPlaces(3))
  const RFC_DIAGONALS := Group(DiagonalPlaces(0), DiagonalPlaces(1), DiagonalPlaces(2), DiagonalPlaces(3))

  /** The positions the generator lists. */
  const COLUMNS := Group(Places(0, 4, 8, 12), Places(1, 5, 9, 13), Places(2, 6, 10, 14), Places(3, 7, 11, 15))
  const DIAGONALS := Group(Places(0, 5, 10, 15), Places(1, 6, 11, 12), Places(2, 7, 8, 13), Places(3, 4, 9, 14))

  predicate ProperGroup(g: Group) {
    Proper(g.w) && Proper(g.x) && Proper(g.y) && Proper(g.z)
  }

  /** Four quarter rounds, one after the other. */
  function RoundOf(s: State, g: Group): State
    requires ProperGroup(g)
  {
    QuarterAt(QuarterAt(QuarterAt(QuarterAt(s, g.w), g.x), g.y), g.z)
  }

  function ColumnRound(s: State): State {
    RoundOf(s, RFC_COLUMNS)
  }

  function DiagonalRound(s: State): State {
    RoundOf(s, RFC_DIAGONALS)
  }

  /** The generator's positions are those of the RFC. */
  lemma GroupsAreRfc(s: State)
    ensures ProperGroup(COLUMNS) && RoundOf(s, COLUMNS) == ColumnRound(s)
    ensures ProperGroup(DIAGONALS) && RoundOf(s, DIAGONALS) == DiagonalRound(s)
  {
    hide QuarterAt;
  }

  function DoubleRound(s: State): State {
    DiagonalRound(ColumnRound(s))
  }

  function Rounds(s: State, n: nat): State {
    if n == 0 then s else DoubleRound(Rounds(s, n - 1))
  }

  /** The block function: ten double rounds, then the input state is added. */
  function Block(s: State): State {
    AddStates(Rounds(s, 10), s)
  }

  function AddStates(t: State, s: State): State {
    seq(16, i requires 0 <= i < 16 => AddWord(t[i], s[i]))
  }

  // ----- the emitted order: step by step across the four quarters -----

  datatype Place = A | B | C | D
  datatype StepOp = Add(src: Place, dst: Place) | Exc(src: Place, dst: Place) | Rot(dst: Place, shift: nat)

  function Pick(q: Quad, p: Place): Word {
    match p case A => q.a case B => q.b case C => q.c case D => q.d
  }

  function Index(p: Places, l: Place): nat {
    match l case A => p.a case B => p.b case C => p.c case D => p.d
  }

  function Change(q: Quad, p: Place, v: Word): Quad {
    match p case A => q.(a := v) case B => q.(b := v) case C => q.(c := v) case D => q.(d := v)
  }

  predicate ProperStep(s: StepOp) {
    s.Rot? ==> 0 < s.shift < 32
  }

  /** The new value of the destination. */
  function Value(s: StepOp, q: Quad): Word
    requires ProperStep(s)
  {
    match s
    case Add(x, y) => AddWord(Pick(q, y), Pick(q, x))
    case Exc(x, y) => WordXor(Pick(q, y), Pick(q, x))
    case Rot(y, k) => RotateRight(k, Pick(q, y))
  }

  function ApplyQuad(s: StepOp, q: Quad): Quad
    requires ProperStep(s)
  {
    Change(q, s.dst, Value(s, q))
  }

  function ApplyAt(s: StepOp, v: State, p: Places): State
    requires ProperStep(s) && Proper(p)
  {
    v[Index(p, s.dst) := Value(s, Get(v, p))]
  }

  /** One step on all four quarters. */
  function ApplyAll(s: StepOp, v: State, g: Group): State
    requires ProperStep(s) && ProperGroup(g)
  {
    ApplyAt(s, ApplyAt(s, ApplyAt(s, ApplyAt(s, v, g.w), g.x), g.y), g.z)
  }

  const STEPS := [Add(B, A), Exc(A, D), Rot(D, 16), Add(D, C), Exc(C, B), Rot(B, 20),
                  Add(B, A), Exc(A, D), Rot(D, 24), Add(D, C), Exc(C, B), Rot(B, 25)]

  lemma StepsProper(i: nat)
    requires i < 12
    ensures ProperStep(STEPS[i])
  {
  }

  /** The first n steps, each on all four quarters: the emitted order. */
  function Interleaved(v: State, g: Group, n: nat): State
    requires n <= 12 && ProperGroup(g)
  {
    if n == 0 then v else StepsProper(n - 1); ApplyAll(STEPS[n - 1], Interleaved(v, g, n - 1), g)
  }

  function StepQuad(q: Quad, n: nat): Quad
    requires n <= 12
  {
    if n == 0 then q else StepsProper(n - 1); ApplyQuad(STEPS[n - 1], StepQuad(q, n - 1))
  }

  // ----- the two orders agree -----

  lemma ApplySame(s: StepOp, v: State, p: Places)
    requires ProperStep(s) && Proper(p)
    ensures Get(ApplyAt(s, v, p), p) == ApplyQuad(s, Get(v, p))
  {
    hide Value;
  }

  predicate Apart(p: Places, q: Places) {
    && p.a != q.a && p.a != q.b && p.a != q.c && p.a != q.d
    && p.b != q.a && p.b != q.b && p.b != q.c && p.b != q.d
    && p.c != q.a && p.c != q.b && p.c != q.c && p.c != q.d
    && p.d != q.a && p.d != q.b && p.d != q.c && p.d != q.d
  }

  lemma ApplyApart(s: StepOp, v: State, p: Places, q: Places)
    requires ProperStep(s) && Proper(p) && Proper(q) && Apart(p, q)
    ensures Get(ApplyAt(s, v, p), q) == Get(v, q)
  {
    hide Value;
  }

  predicate Partition(g: Group) {
    && ProperGroup(g)
    && Apart(g.w, g.x) && Apart(g.w, g.y) && Apart(g.w, g.z)
    && Apart(g.x, g.y) && Apart(g.x, g.z) && Apart(g.y, g.z)
    && Apart(g.x, g.w) && Apart(g.y, g.w) && Apart(g.z, g.w)
    && Apart(g.y, g.x) && Apart(g.z, g.x) && Apart(g.z, g.y)
  }

  lemma ApplyAllQuads(s: StepOp, v: State, g: Group)
    requires ProperStep(s) && Partition(g)
    ensures var v' := ApplyAll(s, v, g);
      && Get(v', g.w) == ApplyQuad(s, Get(v, g.w)) && Get(v', g.x) == ApplyQuad(s, Get(v, g.x))
      && Get(v', g.y) == ApplyQuad(s, Get(v, g.y)) && Get(v', g.z) == ApplyQuad(s, Get(v, g.z))
  {
    hide ApplyAt, ApplyQuad, Get, Apart, Proper, ProperStep;
    var v1 := ApplyAt(s, v, g.w);
    var v2 := ApplyAt(s, v1, g.x);
    var v3 := ApplyAt(s, v2, g.y);
    ApplySame(s, v, g.w);
    ApplyApart(s, v, g.w, g.x);
    ApplyApart(s, v, g.w, g.y);
    ApplyApart(s, v, g.w, g.z);
    ApplySame(s, v1, g.x);
    ApplyApart(s, v1, g.x, g.w);
    ApplyApart(s, v1, g.x, g.y);
    ApplyApart(s, v1, g.x, g.z);
    ApplySame(s, v2, g.y);
    ApplyApart(s, v2, g.y, g.w);
    ApplyApart(s, v2, g.y, g.x);
    ApplyApart(s, v2, g.y, g.z);
    ApplySame(s, v3, g.z);
    ApplyApart(s, v3, g.z, g.w);
    ApplyApart(s, v3, g.z, g.x);
    ApplyApart(s, v3, g.z, g.y);
  }

  lemma {:induction false} InterleavedQuads(v: State, g: Group, n: nat)
    requires n <= 12 && Partition(g)
    ensures var v' := Interleaved(v, g, n);
      && Get(v', g.w) == StepQuad(Get(v, g.w), n) && Get(v', g.x) == StepQuad(Get(v, g.x), n)
      && Get(v', g.y) == StepQuad(Get(v, g.y), n) && Get(v', g.z) == StepQuad(Get(v, g.z), n)
  {
    hide ApplyAll, ApplyQuad, Get, Apart, Proper;
    if n > 0 {
      InterleavedQuads(v, g, n - 1);
      StepsProper(n - 1);
      ApplyAllQuads(STEPS[n - 1], Interleaved(v, g, n - 1), g);
    }
  }

  lemma HalfSteps(q: Quad, n: nat, r1: nat, r2: nat)
    requires n + 6 <= 12 && 0 < r1 < 32 && 0 < r2 < 32
    requires STEPS[n..n + 6] == [Add(B, A), Exc(A, D), Rot(D, 32 - r1), Add(D, C), Exc(C, B), Rot(B, 32 - r2)]
    ensures StepQuad(q, n + 6) == HalfQuarter(StepQuad(q, n), r1, r2)
  {
    hide AddWord, WordXor, RotateRight;
    assert STEPS[n..n + 6][0] == STEPS[n] && STEPS[n..n + 6][1] == STEPS[n + 1] && STEPS[n..n + 6][2] == STEPS[n + 2];
    assert STEPS[n..n + 6][3] == STEPS[n + 3] && STEPS[n..n + 6][4] == STEPS[n + 4] && STEPS[n..n + 6][5] == STEPS[n + 5];
    var q0 := StepQuad(q, n);
    var a := AddWord(q0.a, q0.b);
    var d := RotateRight(32 - r1, WordXor(q0.d, a));
    assert StepQuad(q, n + 1) == q0.(a := a);
    assert StepQuad(q, n + 2) == q0.(a := a, d := WordXor(q0.d, a));
    assert StepQuad(q, n + 3) == q0.(a := a, d := d);
    var c := AddWord(q0.c, d);
    assert StepQuad(q, n + 4) == q0.(a := a, d := d, c := c);
    assert StepQuad(q, n + 5) == q0.(a := a, d := d, c := c, b := WordXor(q0.b, c));
  }

  /** The twelve steps are the RFC quarter round. */
  lemma StepsAreQuarterRound(q: Quad)
    ensures StepQuad(q, 12) == QuarterRound(q)
  {
    hide HalfQuarter, ApplyQuad;
    HalfSteps(q, 0, 16, 12);
    HalfSteps(q, 6, 8, 7);
  }

  lemma QuarterQuads(v: State, p: Places, q: Places)
    requires Proper(p) && Proper(q) && Apart(p, q)
    ensures Get(QuarterAt(v, p), p) == QuarterRound(Get(v, p)) && Get(QuarterAt(v, p), q) == Get(v, q)
  {
    hide QuarterRound;
  }

  lemma SequentialQuads(v: State, g: Group)
    requires Partition(g)
    ensures var v' := RoundOf(v, g);
      && Get(v', g.w) == QuarterRound(Get(v, g.w)) && Get(v', g.x) == QuarterRound(Get(v, g.x))
      && Get(v', g.y) == QuarterRound(Get(v, g.y)) && Get(v', g.z) == QuarterRound(Get(v, g.z))
  {
    hide QuarterAt, QuarterRound, Get, Apart, Proper;
    var v1 := QuarterAt(v, g.w);
    var v2 := QuarterAt(v1, g.x);
    var v3 := QuarterAt(v2, g.y);
    QuarterQuads(v, g.w, g.x);
    QuarterQuads(v, g.w, g.y);
    QuarterQuads(v, g.w, g.z);
    QuarterQuads(v1, g.x, g.w);
    QuarterQuads(v1, g.x, g.y);
    QuarterQuads(v1, g.x, g.z);
    QuarterQuads(v2, g.y, g.w);
    QuarterQuads(v2, g.y, g.x);
    QuarterQuads(v2, g.y, g.z);
    QuarterQuads(v3, g.z, g.w);
    QuarterQuads(v3, g.z, g.x);
    QuarterQuads(v3, g.z, g.y);
  }

  lemma QuadsDetermine(v: State, v': State, g: Group)
    requires g == COLUMNS || g == DIAGONALS
    requires ProperGroup(g) && Get(v, g.w) == Get(v', g.w) && Get(v, g.x) == Get(v', g.x)
    requires Get(v, g.y) == Get(v', g.y) && Get(v, g.z) == Get(v', g.z)
    ensures v == v'
  {
    if g == COLUMNS {
      assert v[0] == v'[0] && v[4] == v'[4] && v[8] == v'[8] && v[12] == v'[12];
    } else {
      assert v[0] == v'[0] && v[5] == v'[5] && v[10] == v'[10] && v[15] == v'[15];
    }
    assert forall i :: 0 <= i < 16 ==> v[i] == v'[i];
  }

  /** Emitting step by step across independent quarters computes the same round
      as four sequential quarter rounds, for every state. */
  lemma InterleavedIsRound(v: State, g: Group)
    requires g == COLUMNS || g == DIAGONALS
    ensures Partition(g) && Interleaved(v, g, 12) == RoundOf(v, g)
  {
    assert Partition(g);
    hide Interleaved, RoundOf, QuarterRound, StepQuad, Get;
    InterleavedQuads(v, g, 12);
    SequentialQuads(v, g);
    StepsAreQuarterRound(Get(v, g.w));
    StepsAreQuarterRound(Get(v, g.x));
    StepsAreQuarterRound(Get(v, g.y));
    StepsAreQuarterRound(Get(v, g.z));
    QuadsDetermine(Interleaved(v, g, 12), RoundOf(v, g), g);
  }
}
