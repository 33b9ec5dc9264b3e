/** 32-bit words, bytes and the bitwise operators of the MIPS backend, over
    natural numbers. Wrap-around is always written out as "% WORD". */
module Words {
  const WORD := 0x1_0000_0000

  type Byte = x: nat | x < 256
  type Word = x: nat | x < WORD

  function Pow2(k: nat): (p: nat)
    ensures p >= 1
  {
    if k == 0 then 1 else 2 * Pow2(k - 1)
  }

  function Bit(b: bool): nat {
    if b then 1 else 0
  }

  function BitOr(a: nat, b: nat): nat
    decreases a + b
  {
    if a == 0 && b == 0 then 0
    else 2 * BitOr(a / 2, b / 2) + Bit(a % 2 == 1 || b % 2 == 1)
  }

  function BitAnd(a: nat, b: nat): nat {
    if a == 0 || b == 0 then 0
    else 2 * BitAnd(a / 2, b / 2) + Bit(a % 2 == 1 && b % 2 == 1)
  }

  function BitXor(a: nat, b: nat): nat
    decreases a + b
  {
    if a == 0 && b == 0 then 0
    else 2 * BitXor(a / 2, b / 2) + Bit(a % 2 != b % 2)
  }

  lemma {:induction false} ModDouble(x: nat, p: nat)
    requires p >= 1
    ensures x % (2 * p) == 2 * (x / 2 % p) + x % 2
  {
    var q, r := x / 2 / p, x / 2 % p;
    assert x == 2 * (q * p + r) + x % 2;
    assert x == q * (2 * p) + (2 * r + x % 2) by {
      assert 2 * (q * p) == q * (2 * p);
    }
    ModUnique(x, 2 * p, q, 2 * r + x % 2);
  }

  lemma ModUnique(x: nat, d: nat, q: nat, r: nat)
    requires d > 0 && x == q * d + r && r < d
    ensures x / d == q && x % d == r
  {
    assert x == x / d * d + x % d;
    assert (q - x / d) * d == q * d - x / d * d;
    MultipleBelow(q - x / d, d);
  }

  /** Reducing before adding makes no difference. */
  lemma ModSum(a: nat, b: nat, d: nat)
    requires d > 0
    ensures (a % d + b) % d == (a + b) % d
  {
    var q, x := a / d, a % d + b;
    assert a == q * d + a % d;
    assert x == x / d * d + x % d;
    assert a + b == (q + x / d) * d + x % d by {
      assert (q + x / d) * d == q * d + x / d * d;
    }
    ModUnique(a + b, d, q + x / d, x % d);
  }

  /** The only multiple of d strictly between -d and d is zero. */
  lemma MultipleBelow(a: int, d: nat)
    requires 0 < a * d + d && a * d < d
    ensures a == 0
  {
    if a >= 1 {
      MulMonotone(1, a, d);
    } else if a <= -1 {
      MulMonotone(a, -1, d);
    }
  }

  lemma MulMonotone(a: int, b: int, c: nat)
    requires a <= b
    ensures a * c <= b * c
  {
    assert b * c - a * c == (b - a) * c;
  }

  function Quotient(x: nat, p: nat): (q: nat)
    requires p >= 1
    ensures q <= x
  {
    var q := x / p;
    assert x == q * p + x % p;
    MulMonotone(1, p, q);
    q
  }

  lemma OrSwap(a: nat, b: nat)
    ensures BitOr(a, b) == BitOr(b, a)
    decreases a + b
  {
  }

  /** Words with no common bits: OR is addition. */
  lemma {:induction false} OrOfDisjoint(k: nat, a: nat, b: nat)
    requires a < Pow2(k) && b % Pow2(k) == 0
    ensures BitOr(a, b) == a + b
    decreases k, b
  {
    if k == 0 {
      if b > 0 {
        OrOfDisjoint(0, 0, b / 2);
      }
    } else {
      ModDouble(b, Pow2(k - 1));
      OrOfDisjoint(k - 1, a / 2, b / 2);
    }
  }

  lemma AndOddMask(p: nat, x: nat)
    requires p >= 1
    ensures BitAnd(2 * p - 1, x) == 2 * BitAnd(p - 1, x / 2) + x % 2
  {
    assert (2 * p - 1) / 2 == p - 1 && (2 * p - 1) % 2 == 1;
  }

  lemma {:induction false} AndAllOnes(k: nat, x: nat)
    requires x < Pow2(k)
    ensures BitAnd(Pow2(k) - 1, x) == x
  {
    if k > 0 {
      AndAllOnes(k - 1, x / 2);
      AndOddMask(Pow2(k - 1), x);
    }
  }

  /** Masking with 3 keeps the low two bits; masking with -4 clears them. */
  lemma AndTwoBits(x: Word)
    ensures BitAnd(3, x) == x % 4
    ensures BitAnd(WORD - 4, x) == x - x % 4
  {
    AndOddMask(2, x);
    AndOddMask(1, x / 2);
    Pow2Table();
    AndAllOnes(30, x / 4);
    assert BitAnd(0x7fff_fffe, x / 2) == 2 * BitAnd(0x3fff_ffff, x / 4);
    assert BitAnd(WORD - 4, x) == 2 * BitAnd(0x7fff_fffe, x / 2);
  }

  lemma {:induction false} Pow2Monotone(a: nat, b: nat)
    requires a <= b
    ensures Pow2(a) <= Pow2(b)
    decreases b
  {
    if a < b { Pow2Monotone(a, b - 1); }
  }

  lemma {:induction false} Pow2Add(a: nat, b: nat)
    ensures Pow2(a + b) == Pow2(a) * Pow2(b)
  {
    if a > 0 {
      Pow2Add(a - 1, b);
      assert 2 * (Pow2(a - 1) * Pow2(b)) == (2 * Pow2(a - 1)) * Pow2(b);
    }
  }

  lemma Pow2Table()
    ensures Pow2(2) == 4 && Pow2(8) == 0x100 && Pow2(16) == 0x1_0000
    ensures Pow2(24) == 0x100_0000 && Pow2(30) == 0x4000_0000 && Pow2(32) == WORD
  {
    assert Pow2(4) == 16;
    assert Pow2(8) == 0x100;
    assert Pow2(12) == 0x1000;
    assert Pow2(16) == 0x1_0000;
    assert Pow2(20) == 0x10_0000;
    assert Pow2(24) == 0x100_0000;
    assert Pow2(28) == 0x1000_0000;
    assert Pow2(30) == 0x4000_0000;
  }

  lemma {:induction false} XorBound(k: nat, a: nat, b: nat)
    requires a < Pow2(k) && b < Pow2(k)
    ensures BitXor(a, b) < Pow2(k)
  {
    if k > 0 { XorBound(k - 1, a / 2, b / 2); }
  }

  lemma {:induction false} OrBound(k: nat, a: nat, b: nat)
    requires a < Pow2(k) && b < Pow2(k)
    ensures BitOr(a, b) < Pow2(k)
  {
    if k > 0 { OrBound(k - 1, a / 2, b / 2); }
  }

  lemma {:induction false} AndBound(a: nat, b: nat)
    ensures BitAnd(a, b) <= b
  {
    if a > 0 && b > 0 { AndBound(a / 2, b / 2); }
  }

  /** XOR with the same value twice is the identity. */
  lemma {:induction false} XorTwice(a: nat, b: nat)
    ensures BitXor(BitXor(a, b), b) == a
    decreases a + b
  {
    if a != 0 || b != 0 {
      XorTwice(a / 2, b / 2);
      assert BitXor(a, b) / 2 == BitXor(a / 2, b / 2);
    }
  }

  function WordXor(a: Word, b: Word): Word {
    Pow2Table();
    XorBound(32, a, b);
    BitXor(a, b)
  }

  function WordOr(a: Word, b: Word): Word {
    Pow2Table();
    OrBound(32, a, b);
    BitOr(a, b)
  }

  function WordAnd(a: Word, b: Word): Word {
    AndBound(a, b);
    BitAnd(a, b)
  }

  function Rotate(p: nat, q: nat, x: nat): nat
    requires p > 0
  {
    x / p + x % p * q
  }

  lemma RotateBound(p: nat, q: nat, x: nat)
    requires p > 0 && x < p * q
    ensures Rotate(p, q, x) < p * q
  {
    var hi, lo := x / p, x % p;
    assert x == hi * p + lo;
    if hi >= q {
      MulMonotone(q, hi, p);
    }
    MulMonotone(lo, p - 1, q);
    assert (p - 1) * q == p * q - q;
  }

  lemma Pow2Complement(k: nat)
    requires k <= 32
    ensures Pow2(k) * Pow2(32 - k) == WORD
  {
    Pow2Table();
    Pow2Add(k, 32 - k);
  }

  /** Rotate right by k of 32 bits. */
  function RotateRight(k: nat, x: Word): (r: Word)
    requires 0 < k < 32
  {
    Pow2Complement(k);
    RotateBound(Pow2(k), Pow2(32 - k), x);
    Rotate(Pow2(k), Pow2(32 - k), x)
  }

  /** Little-endian value of a byte string. */
  function LittleEndian(b: seq<Byte>): (v: nat)
  {
    if b == [] then 0 else b[0] + 256 * LittleEndian(b[1..])
  }

  function WordOfBytes(b0: Byte, b1: Byte, b2: Byte, b3: Byte): Word {
    b0 + 0x100 * b1 + 0x1_0000 * b2 + 0x100_0000 * b3
  }

  /** Byte k (0 is the least significant) of a word. */
  function ByteOfWord(w: Word, k: nat): Byte
    requires k < 4
  {
    match k
    case 0 => w % 0x100
    case 1 => w / 0x100 % 0x100
    case 2 => w / 0x1_0000 % 0x100
    case 3 => w / 0x100_0000
  }

  lemma WordBytesRoundTrip(w: Word)
    ensures WordOfBytes(ByteOfWord(w, 0), ByteOfWord(w, 1), ByteOfWord(w, 2), ByteOfWord(w, 3)) == w
  {
    assert w / 0x100 / 0x100 == w / 0x1_0000;
    assert w / 0x1_0000 / 0x100 == w / 0x100_0000;
  }

  lemma BytesWordRoundTrip(b0: Byte, b1: Byte, b2: Byte, b3: Byte)
    ensures ByteOfWord(WordOfBytes(b0, b1, b2, b3), 0) == b0
    ensures ByteOfWord(WordOfBytes(b0, b1, b2, b3), 1) == b1
    ensures ByteOfWord(WordOfBytes(b0, b1, b2, b3), 2) == b2
    ensures ByteOfWord(WordOfBytes(b0, b1, b2, b3), 3) == b3
  {
    var w: nat := WordOfBytes(b0, b1, b2, b3);
    var h1: nat, h2: nat := b1 + 0x100 * b2 + 0x1_0000 * b3, b2 + 0x100 * b3;
    ModUnique(w, 0x100, h1, b0);
    ModUnique(h1, 0x100, h2, b1);
    ModUnique(w, 0x1_0000, h2, b0 + 0x100 * b1);
    ModUnique(h2, 0x100, b3, b2);
    ModUnique(w, 0x100_0000, b3, b0 + 0x100 * b1 + 0x1_0000 * b2);
  }

  lemma {:induction false} LittleEndianBound(b: seq<Byte>)
    ensures LittleEndian(b) < Pow2(8 * |b|)
  {
    if b != [] {
      LittleEndianBound(b[1..]);
      Pow2Table();
      Pow2Add(8, 8 * |b| - 8);
    }
  }

  lemma Regroup(a: nat, b: nat, p: nat, v: nat)
    ensures a + 256 * (b + p * v) == a + 256 * b + (256 * p) * v
  {
  }

  lemma {:induction false} LittleEndianSplit(a: seq<Byte>, b: seq<Byte>)
    ensures LittleEndian(a + b) == LittleEndian(a) + Pow2(8 * |a|) * LittleEndian(b)
  {
    if a == [] {
      assert a + b == b;
    } else {
      assert (a + b)[1..] == a[1..] + b;
      LittleEndianSplit(a[1..], b);
      var p, v := Pow2(8 * |a| - 8), LittleEndian(b);
      assert Pow2(8 * |a|) == 256 * p by {
        Pow2Table();
        Pow2Add(8, 8 * |a| - 8);
      }
      Regroup(a[0], LittleEndian(a[1..]), p, v);
    }
  }
}
