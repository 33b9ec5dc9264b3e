/** Poly1305 as section 2.5 of RFC 8439 defines it, and the partially reduced
    accumulator that the upstream implementation and the MIPS code keep. */
module Poly1305 {
  import opened Words

  const TWO_128 := 0x1_0000_0000_0000_0000_0000_0000_0000_0000
  const TWO_130 := 4 * TWO_128
  const PRIME := TWO_130 - 5

  /** Keys below 2^124, as clamping makes them. */
  const KEY_LIMIT := 0x1000_0000_0000_0000_0000_0000_0000_0000

  /** Accumulators the block code accepts: high limb at most four. */
  const ACC_LIMIT := 5 * TWO_128

  /** A block with the extra one bit beyond its last byte. */
  function BlockNumber(block: seq<Byte>): nat {
    LittleEndian(block) + Pow2(8 * |block|)
  }

  /** That is, the number whose little-endian bytes are the block and a one. */
  lemma BlockNumberIsRfc(block: seq<Byte>)
    ensures BlockNumber(block) == LittleEndian(block + [1])
  {
    LittleEndianSplit(block, [1]);
    assert [1][1..] == [];
    assert LittleEndian([1]) == 1;
  }

  /** The RFC step: a := (a + n) * r mod p. */
  function RfcStep(a: nat, r: nat, n: nat): nat {
    (a + n) * r % PRIME
  }

  function RfcFold(a: nat, r: nat, msg: seq<Byte>): nat
    decreases |msg|
  {
    if msg == [] then a
    else if |msg| < 16 then RfcStep(a, r, BlockNumber(msg))
    else RfcFold(RfcStep(a, r, BlockNumber(msg[..16])), r, msg[16..])
  }

  /** One fold of the bits above 2^130 back into the low ones. */
  function Partial(p: nat): nat {
    p % TWO_130 + 5 * (p / TWO_130)
  }

  function Mul(h: nat, r: nat): nat {
    h * r
  }

  function LazyStep(h: nat, r: nat, n: nat): nat {
    Partial(Mul(h + n, r))
  }

  /** What the implementation accumulates, block by block. */
  function LazyFold(h: nat, r: nat, msg: seq<Byte>): nat
    decreases |msg|
  {
    if msg == [] then h
    else if |msg| < 16 then LazyStep(h, r, BlockNumber(msg))
    else LazyFold(LazyStep(h, r, BlockNumber(msg[..16])), r, msg[16..])
  }

  lemma SameResidue(x: nat, y: nat, k: nat)
    requires x == y + k * PRIME
    ensures x % PRIME == y % PRIME
  {
    ModUnique(x, PRIME, y / PRIME + k, y % PRIME);
  }

  /** Folding does not change the residue modulo 2^130 - 5. */
  lemma PartialCongruent(p: nat)
    ensures Partial(p) % PRIME == p % PRIME
  {
    assert p == Partial(p) + p / TWO_130 * PRIME;
    SameResidue(p, Partial(p), p / TWO_130);
  }

  lemma MulModLeft(x: nat, n: nat, r: nat)
    ensures Mul(x + n, r) % PRIME == Mul(x % PRIME + n, r) % PRIME
  {
    var q := x / PRIME;
    assert x + n == x % PRIME + n + q * PRIME;
    assert (x % PRIME + n + q * PRIME) * r == (x % PRIME + n) * r + q * r * PRIME by {
      assert (q * PRIME) * r == (q * r) * PRIME;
    }
    SameResidue(Mul(x + n, r), Mul(x % PRIME + n, r), q * r);
  }

  lemma LazyStepCongruent(h: nat, a: nat, r: nat, n: nat)
    requires h % PRIME == a % PRIME
    ensures LazyStep(h, r, n) % PRIME == RfcStep(a, r, n)
  {
    hide Partial;
    PartialCongruent(Mul(h + n, r));
    MulModLeft(h, n, r);
    MulModLeft(a, n, r);
  }

  /** For every message the lazy accumulator is the RFC accumulator modulo p. */
  lemma {:induction false} LazyFoldCongruent(h: nat, a: nat, r: nat, msg: seq<Byte>)
    requires h % PRIME == a % PRIME
    ensures LazyFold(h, r, msg) % PRIME == RfcFold(a, r, msg) % PRIME
    decreases |msg|
  {
    hide LazyStep, RfcStep, BlockNumber;
    if msg != [] {
      var n := BlockNumber(if |msg| < 16 then msg else msg[..16]);
      LazyStepCongruent(h, a, r, n);
      RfcStepReduced(a, r, n);
      if |msg| >= 16 {
        LazyFoldCongruent(LazyStep(h, r, n), RfcStep(a, r, n), r, msg[16..]);
      }
    }
  }

  lemma RfcStepReduced(a: nat, r: nat, n: nat)
    ensures RfcStep(a, r, n) % PRIME == RfcStep(a, r, n)
  {
  }

  lemma MulBound(h: nat, r: nat, x: nat, y: nat)
    requires h <= x && r <= y
    ensures Mul(h, r) <= Mul(x, y)
  {
    MulMonotone(h, x, r);
    MulMonotone(r, y, x);
    assert x * r == r * x && y * x == x * y;
  }

  lemma BlockNumberBound(block: seq<Byte>)
    requires |block| <= 16
    ensures BlockNumber(block) <= 2 * TWO_128
  {
    LittleEndianBound(block);
    Pow2Monotone(8 * |block|, 128);
    Pow2Table();
    Pow2Add(32, 32);
    Pow2Add(64, 64);
  }

  /** The accumulator stays below 5 * 2^128, for every block and clamped key. */
  lemma LazyStepBound(h: nat, r: nat, n: nat)
    requires h < ACC_LIMIT && r < KEY_LIMIT && n <= 2 * TWO_128
    ensures LazyStep(h, r, n) < ACC_LIMIT
  {
    MulBound(h + n, r, 7 * TWO_128, KEY_LIMIT);
    var p := Mul(h + n, r);
    assert p / TWO_130 <= 7 * KEY_LIMIT / 4;
  }

  lemma {:induction false} LazyFoldBound(h: nat, r: nat, msg: seq<Byte>)
    requires h < ACC_LIMIT && r < KEY_LIMIT
    ensures LazyFold(h, r, msg) < ACC_LIMIT
    decreases |msg|
  {
    hide LazyStep, BlockNumber;
    if msg != [] {
      var b := if |msg| < 16 then msg else msg[..16];
      BlockNumberBound(b);
      LazyStepBound(h, r, BlockNumber(b));
      if |msg| >= 16 {
        LazyFoldBound(LazyStep(h, r, BlockNumber(b)), r, msg[16..]);
      }
    }
  }

  /** Whole blocks may be folded first: the basis of chunked processing. */
  lemma {:induction false} LazyFoldSplit(h: nat, r: nat, a: seq<Byte>, b: seq<Byte>)
    requires |a| % 16 == 0
    ensures LazyFold(h, r, a + b) == LazyFold(LazyFold(h, r, a), r, b)
    decreases |a|
  {
    hide LazyStep, BlockNumber;
    if a == [] {
      assert a + b == b;
    } else {
      assert (a + b)[..16] == a[..16] && (a + b)[16..] == a[16..] + b;
      LazyFoldSplit(LazyStep(h, r, BlockNumber(a[..16])), r, a[16..], b);
    }
  }
}
