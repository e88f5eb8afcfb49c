/**
  The 64-bit arithmetic runtime of tcc_10/libtcc1.c: division of 64-bit words on a
  processor that divides 64 by 32 bits and multiplies 32 by 32 bits.

  Unsigned words are naturals below B = 2^32, double words naturals below B * B. Every
  place where the processor drops a carry is written out as a remainder.
 */
module DoubleWord {
  import opened M2Word

  const B: nat := 0x1_0000_0000

  type UWord = x: nat | x < B
  type UDWord = x: nat | x < B * B
  type DWord = x: int | -0x8000_0000_0000_0000 <= x < 0x8000_0000_0000_0000

  function Join(high: UWord, low: UWord): (n: UDWord)
    ensures n / B == high && n % B == low && n == high * B + low
  {
    SplitJoin(high, low);
    high * B + low
  }

  lemma SplitJoin(high: UWord, low: UWord)
    ensures high * B + low < B * B
    ensures (high * B + low) / B == high && (high * B + low) % B == low
  {
  }

  /** `<<` on a word: the bits that leave at the top are lost. */
  function Shl(x: UWord, k: nat): UWord { (x * Pow2(k)) % B }

  function Shr(x: UWord, k: nat): (r: UWord) {
    QuotientBounds(x, Pow2(k));
    x / Pow2(k)
  }

  function Or(x: UWord, y: UWord): UWord {
    BitsBound(LOr, x, y, 32);
    PowerOfTwo32();
    Bits(LOr, x, y, 32)
  }

  lemma BitsBound(op: Logic, a: nat, b: nat, n: nat)
    ensures 0 <= Bits(op, a, b, n) < Pow2(n)
  {
    if n > 0 { BitsBound(op, a / 2, b / 2, n - 1); }
  }

  lemma PowerOfTwo32()
    ensures Pow2(32) == B && Pow2(31) == 0x8000_0000
  {
    assert Pow2(8) == 256 && Pow2(16) == Pow2(8) * 256 by { PowSum(8, 8); }
    PowSum(16, 16);
  }

  lemma {:induction false} PowSum(i: nat, j: nat)
    ensures Pow2(i + j) == Pow2(i) * Pow2(j)
  {
    if i > 0 {
      PowSum(i - 1, j);
      assert 2 * (Pow2(i - 1) * Pow2(j)) == (2 * Pow2(i - 1)) * Pow2(j);
    }
  }

  lemma {:induction false} PowMonotone(i: nat, j: nat)
    requires i <= j
    ensures Pow2(i) <= Pow2(j)
  {
    if i < j { PowMonotone(i, j - 1); }
  }

  /** Or of a number below 2^k into a multiple of 2^k is addition. */
  lemma {:induction false} OrDisjoint(x: nat, y: nat, k: nat, n: nat)
    requires k <= n && y < Pow2(k) && x * Pow2(k) < Pow2(n)
    ensures Bits(LOr, x * Pow2(k), y, n) == x * Pow2(k) + y
  {
    hide Bits, Pow2;
    if k > 0 {
      PowStep(k);
      PowStep(n);
      Twice(x, Pow2(k - 1));
      OrDisjoint(x, y / 2, k - 1, n - 1);
      OrStep(x * Pow2(k - 1), y, n);
    } else {
      PowZero();
      OrZero(x, n);
    }
  }

  lemma PowZero()
    ensures Pow2(0) == 1
  {
  }

  lemma PowStep(n: nat)
    requires n > 0
    ensures Pow2(n) == 2 * Pow2(n - 1)
  {
  }

  lemma Twice(x: nat, p: nat)
    ensures x * (2 * p) == 2 * (x * p)
  {
  }

  lemma OrStep(h: nat, y: nat, n: nat)
    requires n > 0 && Bits(LOr, h, y / 2, n - 1) == h + y / 2
    ensures Bits(LOr, 2 * h, y, n) == 2 * h + y
  {
    assert (2 * h) / 2 == h && (2 * h) % 2 == 0;
  }

  lemma {:induction false} OrZero(x: nat, n: nat)
    requires x < Pow2(n)
    ensures Bits(LOr, x, 0, n) == x
  {
    if n > 0 { OrZero(x / 2, n - 1); }
  }

  /** `divl`: double word by word, with a quotient that must fit a word. */
  function Divl(high: UWord, low: UWord, dv: UWord): (r: (UWord, UWord))
    requires high < dv
    ensures Join(high, low) == r.0 * dv + r.1 && r.1 < dv
  {
    var n := Join(high, low);
    DivlFits(high, low, dv);
    (n / dv, n % dv)
  }

  lemma DivlFits(high: UWord, low: UWord, dv: UWord)
    requires high < dv
    ensures Join(high, low) / dv < B
  {
    var n := Join(high, low);
    var q := n / dv;
    assert n < dv * B;
    assert n == dv * q + n % dv;
    if q >= B { MulMonotone(B, q, dv); }
  }

  /** `mull`: the double-word product of two words, high word first. */
  function Mull(u: UWord, v: UWord): (r: (UWord, UWord))
    ensures Join(r.0, r.1) == u * v
  {
    ProductBound(u, v);
    WordsOf(u * v);
    (u * v / B, u * v % B)
  }

  lemma ProductBound(u: UWord, v: UWord)
    ensures 0 <= u * v < B * B
  {
    MulMonotone(u, B - 1, v);
    assert (B - 1) * v <= (B - 1) * (B - 1);
  }

  lemma WordsOf(p: nat)
    requires p < B * B
    ensures p / B < B && p % B < B && (p / B) * B + p % B == p
  {
  }

  /** `subl` then `sbbl`: double-word subtraction, modulo B * B. */
  function Subb(ah: UWord, al: UWord, bh: UWord, bl: UWord): (r: (UWord, UWord))
    ensures Join(r.0, r.1) == (Join(ah, al) - Join(bh, bl)) % (B * B)
  {
    SubbExact(ah, al, bh, bl);
    var borrow := if al < bl then 1 else 0;
    ((ah - bh - borrow) % B, (al - bl) % B)
  }

  lemma SubbExact(ah: UWord, al: UWord, bh: UWord, bl: UWord)
    ensures var borrow := if al < bl then 1 else 0;
      (ah - bh - borrow) % B * B + (al - bl) % B == (ah * B + al - (bh * B + bl)) % (B * B)
  {
    var borrow := if al < bl then 1 else 0;
    var high, low := ah - bh - borrow, al - bl + borrow * B;
    assert (al - bl) % B == low;
    assert high % B == if high < 0 then high + B else high;
    var x := ah * B + al - (bh * B + bl);
    assert x == high * B + low;
    assert x % (B * B) == if high < 0 then x + B * B else x;
  }

  /** Position of the highest set bit, the result of `bsrl`. */
  function Bsr(x: nat): (k: nat)
    requires x > 0
    ensures Pow2(k) <= x < 2 * Pow2(k)
  {
    if x == 1 then 0 else 1 + Bsr(x / 2)
  }

  /** `count_leading_zeros`: the bit position, exclusive-or 31. */
  function LeadingZeros(x: UWord): (bm: nat)
    requires x > 0
    ensures bm <= 31 && 0x8000_0000 <= x * Pow2(bm) < B
  {
    hide Bits, Bsr, Pow2;
    LeadingZerosNormalise(x);
    Bits(LXor, Bsr(x), 31, 32)
  }

  lemma LeadingZerosNormalise(x: UWord)
    requires x > 0
    ensures Bits(LXor, Bsr(x), 31, 32) == 31 - Bsr(x) >= 0
    ensures 0x8000_0000 <= x * Pow2(31 - Bsr(x)) < B
  {
    hide Bits, Bsr, Pow2;
    var k := Bsr(x);
    BsrBound(x);
    XorThirtyOne(k);
    PowerOfTwo32();
    PowSum(k, 31 - k);
    Scale(x, Pow2(k), Pow2(31 - k));
  }

  lemma Scale(x: nat, p: nat, q: nat)
    requires p <= x < 2 * p && q > 0
    ensures p * q <= x * q < 2 * (p * q)
  {
    MulMonotone(p, x, q);
    MulMonotone(x + 1, 2 * p, q);
    assert (x + 1) * q == x * q + q;
    assert (2 * p) * q == 2 * (p * q);
  }

  lemma BsrBound(x: UWord)
    requires x > 0
    ensures Bsr(x) <= 31
  {
    PowerOfTwo32();
    if Bsr(x) > 31 { PowMonotone(32, Bsr(x)); }
  }

  lemma XorThirtyOne(k: nat)
    requires k <= 31
    ensures Bits(LXor, k, 31, 32) == 31 - k
  {
    XorOnes(k, 5, 32);
    assert Pow2(5) == 32;
  }

  lemma {:induction false} XorOnes(k: nat, ones: nat, n: nat)
    requires ones <= n && k < Pow2(ones)
    ensures Bits(LXor, k, Pow2(ones) - 1, n) == Pow2(ones) - 1 - k
  {
    if n > 0 {
      if ones > 0 {
        assert (Pow2(ones) - 1) / 2 == Pow2(ones - 1) - 1 && (Pow2(ones) - 1) % 2 == 1;
        XorOnes(k / 2, ones - 1, n - 1);
      } else {
        XorOnes(0, 0, n - 1);
      }
    }
  }
}

module LongDivision {
  import opened M2Word
  import opened DoubleWord

  /** The remainder is written through a pointer that may be null. */
  class Cell {
    var ll: UDWord
    constructor ()
      ensures ll == 0
    {
      ll := 0;
    }
  }

  /** The processor traps on a division by zero. */
  datatype Outcome<T> = Done(value: T) | DivideError

  lemma DivisionUnique(n: nat, d: nat, q: nat, r: nat)
    requires n == q * d + r && r < d
    ensures q == n / d && r == n % d
  {
    var q1, r1 := n / d, n % d;
    assert n == d * q1 + r1;
    assert (q + 1) * d == q * d + d && (q1 + 1) * d == q1 * d + d;
    if q < q1 {
      MulMonotone(q + 1, q1, d);
    } else if q1 < q {
      MulMonotone(q1 + 1, q, d);
    }
  }

  /** Two chained divisions by one word: the first remainder is the next high word. */
  lemma SchoolDivision(n: UDWord, n1: UWord, n0: UWord, d: UWord, q1: UWord, r1: UWord, q0: UWord, r0: UWord)
    requires n == n1 * B + n0
    requires n1 == q1 * d + r1 && r1 < d
    requires r1 * B + n0 == q0 * d + r0 && r0 < d
    ensures q1 * B + q0 == n / d && r0 == n % d
  {
    assert n == (q1 * B + q0) * d + r0 by {
      assert (q1 * B + q0) * d == q1 * d * B + q0 * d;
    }
    DivisionUnique(n, d, q1 * B + q0, r0);
  }

  /** A double word shifted left by bm, as the three words the code keeps of it. */
  ghost predicate Shifted(n: UDWord, bm: nat, n2: UWord, n1: UWord, n0: UWord) {
    && n2 * (B * B) + n1 * B + n0 == n * Pow2(bm)
    && n2 < Pow2(bm)
  }

  lemma PowSplit(bm: nat)
    requires 0 < bm < 32
    ensures Pow2(bm) * Pow2(32 - bm) == B
  {
    hide Pow2;
    PowSum(bm, 32 - bm);
    PowerOfTwo32();
  }

  lemma DivideBy(x: nat, p: nat)
    requires p > 0
    ensures x == (x / p) * p + x % p && 0 <= x % p < p && 0 <= x / p <= x
  {
    QuotientBounds(x, p);
  }

  /** Shifting a word left keeps its low part, moved up. */
  lemma ShlParts(x: UWord, p: nat, pb: nat)
    requires p > 0 && pb > 0 && p * pb == B
    ensures (x * p) % B == (x % pb) * p && x / pb < p
  {
    DivideBy(x, pb);
    var a, b := x / pb, x % pb;
    assert x * p == a * B + b * p by { assert (a * pb) * p == a * (p * pb); }
    assert b * p < B by { MulMonotone(b, pb - 1, p); assert (pb - 1) * p == B - p; }
    assert (a * B + b * p) % B == b * p;
    if a >= p { MulMonotone(p, a, pb); }
  }

  /** `(hi << bm) | (lo >> b)`: the word in the middle of a funnel shift. */
  lemma Funnel(hi: UWord, lo: UWord, bm: nat)
    requires 0 < bm < 32
    ensures Or(Shl(hi, bm), Shr(lo, 32 - bm)) == (hi % Pow2(32 - bm)) * Pow2(bm) + lo / Pow2(32 - bm)
    ensures Shl(lo, bm) == (lo % Pow2(32 - bm)) * Pow2(bm)
    ensures lo / Pow2(32 - bm) < Pow2(bm)
  {
    hide Pow2, Bits;
    var p, pb := Pow2(bm), Pow2(32 - bm);
    PowSplit(bm);
    ShlParts(hi, p, pb);
    ShlParts(lo, p, pb);
    PowerOfTwo32();
    OrDisjoint(hi % pb, lo / pb, bm, 32);
  }

  lemma NormaliseArith(hi: nat, lo: nat, p: nat, pb: nat)
    requires p > 0 && pb > 0 && p * pb == B
    ensures (hi / pb) * (B * B) + ((hi % pb) * p + lo / pb) * B + (lo % pb) * p == (hi * B + lo) * p
  {
    DivideBy(hi, pb);
    DivideBy(lo, pb);
    var a, b, c, d := hi / pb, hi % pb, lo / pb, lo % pb;
    assert (a * pb) * p == a * B && (c * pb) * p == c * B by {
      assert (a * pb) * p == a * (p * pb) && (c * pb) * p == c * (p * pb);
    }
    calc {
      (hi * B + lo) * p;
      (hi * p) * B + lo * p;
      ((a * pb + b) * p) * B + (c * pb + d) * p;
      (a * B + b * p) * B + c * B + d * p;
    }
  }

  /** The normalising shifts of a double word. */
  lemma Normalise(hi: UWord, lo: UWord, bm: nat)
    requires 0 < bm < 32
    ensures Shifted(Join(hi, lo), bm, Shr(hi, 32 - bm), Or(Shl(hi, bm), Shr(lo, 32 - bm)), Shl(lo, bm))
  {
    hide Pow2, Bits;
    Funnel(hi, lo, bm);
    PowSplit(bm);
    ShlParts(hi, Pow2(bm), Pow2(32 - bm));
    NormaliseArith(hi, lo, Pow2(bm), Pow2(32 - bm));
    ShiftedIntro(Join(hi, lo), bm, Shr(hi, 32 - bm), Or(Shl(hi, bm), Shr(lo, 32 - bm)), Shl(lo, bm));
  }

  lemma ShiftedIntro(n: UDWord, bm: nat, n2: UWord, n1: UWord, n0: UWord)
    requires n2 * (B * B) + n1 * B + n0 == n * Pow2(bm) && n2 < Pow2(bm)
    ensures Shifted(n, bm, n2, n1, n0)
  {
  }

  /** The two words of a divisor whose highest bit has been brought to the top. */
  ghost predicate Normalised(d: UDWord, bm: nat, d1: UWord, d0: UWord) {
    && d1 * B + d0 == d * Pow2(bm)
    && 0x8000_0000 <= d1
    && d0 + Pow2(bm) <= B
  }

  /** Shifting the divisor by its leading zeros loses nothing at the top. */
  lemma NormaliseDivisor(dh: UWord, dl: UWord, bm: nat)
    requires dh > 0 && bm == LeadingZeros(dh) && bm > 0
    ensures Normalised(Join(dh, dl), bm, Or(Shl(dh, bm), Shr(dl, 32 - bm)), Shl(dl, bm))
  {
    hide Pow2, Bits, Bsr, LeadingZeros;
    var p, pb := Pow2(bm), Pow2(32 - bm);
    Normalise(dh, dl, bm);
    PowSplit(bm);
    ShlParts(dh, p, pb);
    assert dh / pb == 0 by {
      DivideBy(dh, pb);
      if dh / pb > 0 { MulMonotone(1, dh / pb, pb); MulMonotone(pb, dh, p); }
    }
    Funnel(dh, dl, bm);
    DivideBy(dh, pb);
    MulMonotone(dl % pb, pb - 1, p);
    assert (pb - 1) * p == B - p;
  }

  /**
    The quotient digit estimated from the top word of the divisor is at most one too
    large, and it is too large exactly when its product with the low word exceeds what
    remains: algorithm D of Knuth needs two corrections in general, but here the dividend
    and the divisor were shifted by the same bm, which bounds the digit by 2^(bm+1).
   */
  lemma DigitEstimate(n: UDWord, d: UDWord, bm: nat, n2: UWord, n1: UWord, n0: UWord, d1: UWord, d0: UWord, q: UWord, r: UWord)
    requires Shifted(n, bm, n2, n1, n0) && Normalised(d, bm, d1, d0)
    requires n2 * B + n1 == q * d1 + r && r < d1
    ensures n * Pow2(bm) - q * (d * Pow2(bm)) == r * B + n0 - q * d0
    ensures r * B + n0 - q * d0 < d * Pow2(bm)
    ensures 0 <= r * B + n0 - q * d0 + d * Pow2(bm)
  {
    hide Pow2;
    var p := Pow2(bm);
    DigitRemainder(n * p, d * p, n2 * B + n1, n0, d1, d0, q, r);
    assert q * d0 >= 0;
    DigitBound(p, n2, n1, d1, q);
    DigitProduct(p, q, d0);
    TwoFactors(p);
  }

  lemma DigitRemainder(n: nat, d: nat, high: nat, n0: UWord, d1: UWord, d0: UWord, q: UWord, r: UWord)
    requires n == high * B + n0 && d == d1 * B + d0 && high == q * d1 + r
    ensures n - q * d == r * B + n0 - q * d0
  {
    assert q * (d1 * B + d0) == q * d1 * B + q * d0;
  }

  lemma DigitProduct(p: nat, q: nat, d0: nat)
    requires q <= 2 * p && d0 + p <= B
    ensures q * d0 <= 2 * p * (B - p)
  {
    MulMonotone(q, 2 * p, d0);
    MulMonotone(d0, B - p, 2 * p);
    assert d0 * (2 * p) == (2 * p) * d0;
  }

  lemma DigitBound(p: nat, n2: UWord, n1: UWord, d1: UWord, q: nat)
    requires 0x8000_0000 <= d1 && n2 < p && q * d1 <= n2 * B + n1
    ensures q < 2 * p
  {
    if q >= 2 * p {
      MulMonotone(2 * p, q, d1);
      MulMonotone(0x8000_0000, d1, 2 * p);
    }
  }

  /** The product of two numbers with sum B is at most a quarter of its square. */
  lemma TwoFactors(p: nat)
    requires p <= B
    ensures 2 * p * (B - p) <= 0x8000_0000 * B
  {
    var x: int := B - 2 * p;
    assert x * x >= 0;
    assert x * x == B * B - 4 * (p * (B - p)) by {
      assert x * x == B * B - 4 * p * B + 4 * p * p;
      assert p * (B - p) == p * B - p * p;
    }
    assert 2 * p * (B - p) == 2 * (p * (B - p));
  }

  /** Shifting the words of a multiple of 2^bm back. */
  lemma ShiftBack(r: UDWord, bm: nat, n1: UWord, n0: UWord)
    requires 0 < bm < 32 && n1 * B + n0 == r * Pow2(bm)
    ensures Join(Shr(n1, bm), Or(Shl(n1, 32 - bm), Shr(n0, bm))) == r
  {
    hide Pow2, Bits;
    var p, pb := Pow2(bm), Pow2(32 - bm);
    PowSplit(bm);
    Funnel(n1, n0, 32 - bm);
    DivideBy(n1, p);
    DivideBy(n0, p);
    ShiftBackArith(r, n1 / p, n1 % p, n0 / p, n0 % p, p, pb);
  }

  lemma ShiftBackArith(r: nat, a: nat, b: nat, c: nat, e: nat, p: nat, pb: nat)
    requires p > 0 && p * pb == B && e < p
    requires (a * p + b) * B + c * p + e == r * p
    ensures a * B + b * pb + c == r
  {
    var s := a * B + b * pb + c;
    assert s * p == (a * p + b) * B + c * p by {
      assert (b * pb) * p == b * B by { assert (b * pb) * p == b * (p * pb); }
      assert (a * B) * p == (a * p) * B;
    }
    assert (r - s) * p == e;
    if r - s > 0 { MulMonotone(1, r - s, p); }
  }

  /** A scaled division is the division. */
  lemma ScaledDivision(n: nat, d: nat, p: nat, q: nat, r: nat)
    requires p > 0 && n * p - q * (d * p) == r && r < d * p
    ensures q == n / d && r == (n % d) * p && d > 0
  {
    assert d > 0;
    assert (n - q * d) * p == r;
    var x: int := n - q * d;
    if x >= d { MulMonotone(d, x, p); }
    DivisionUnique(n, d, q, x);
  }

  /**
    The last branch of `__udivmoddi4`: the divisor takes two words, its top bit is not
    set, and the dividend's high word is no smaller. The arguments are the four words.
   */
  method DivideShifted(n: UDWord, d: UDWord, bm: nat, rp: Cell?) returns (q0: UWord)
    requires d / B > 0 && bm == LeadingZeros(d / B) && bm > 0
    modifies rp
    ensures q0 == n / d
    ensures rp != null ==> rp.ll == n % d
  {
    hide Pow2, Bits, Bsr, LeadingZeros, Or, Shl, Shr, Divl, Mull, Subb, Shifted, Normalised, Join;
    var d0, d1 := d % B, d / B;
    var n0, n1 := n % B, n / B;
    var b := 32 - bm;
    Normalise(n1, n0, bm);
    NormaliseDivisor(d1, d0, bm);
    NormalisedWords(d, bm, Or(Shl(d1, bm), Shr(d0, b)), Shl(d0, bm));
    d1, d0 := Or(Shl(d1, bm), Shr(d0, b)), Shl(d0, bm);
    var n2 := Shr(n1, b);
    n1, n0 := Or(Shl(n1, bm), Shr(n0, b)), Shl(n0, bm);
    EstimateFits(n, d, bm, n2, n1, n0, d1, d0);
    var qr := Divl(n2, n1, d1);
    DigitEstimate(n, d, bm, n2, n1, n0, d1, d0, qr.0, qr.1);
    q0, n1 := qr.0, qr.1;
    var m := Mull(q0, d0);
    var m1, m0 := m.0, m.1;
    if m1 > n1 || (m1 == n1 && m0 > n0) {
      q0 := q0 - 1;
      m := Subb(m1, m0, d1, d0);
      m1, m0 := m.0, m.1;
    }
    FinalDigit(n, d, Pow2(bm), Join(n1, n0), qr.0 * d0, Join(d1, d0), qr.0, q0, Join(m1, m0));
    if rp != null {
      var diff := Subb(n1, n0, m1, m0);
      n1, n0 := diff.0, diff.1;
      ShiftBack(n % d, bm, n1, n0);
      rp.ll := Join(Shr(n1, bm), Or(Shl(n1, b), Shr(n0, bm)));
    }
  }

  method UDivModDi4(n: UDWord, d: UDWord, rp: Cell?) returns (result: Outcome<UDWord>)
    modifies rp
    ensures result == if d == 0 then DivideError else Done(n / d)
    ensures d != 0 && rp != null ==> rp.ll == n % d
  {
    hide Pow2, Bits, Bsr, Divl, Subb, Join, LeadingZeros;
    var d0, d1 := d % B, d / B;
    var n0, n1 := n % B, n / B;
    assert n == n1 * B + n0 && d == d1 * B + d0;
    var q0, q1 := 0, 0;
    if d1 == 0 {
      if d0 > n1 {
        var qr := Divl(n1, n0, d0);
        q0, n0 := qr.0, qr.1;
        DivisionUnique(n, d, q0, n0);
      } else {
        if d0 == 0 {
          return DivideError;
        }
        var top := Divl(0, n1, d0);
        var qr := Divl(top.1, n0, d0);
        SchoolDivision(n, n1, n0, d0, top.0, top.1, qr.0, qr.1);
        q1, n1 := top.0, top.1;
        q0, n0 := qr.0, qr.1;
      }
      if rp != null {
        rp.ll := Join(0, n0);
      }
    } else if d1 > n1 {
      DivisionUnique(n, d, 0, n);
      if rp != null {
        rp.ll := Join(n1, n0);
      }
    } else {
      var bm := LeadingZeros(d1);
      if bm == 0 {
        PowZero();
        TopBitDivision(n, d);
        if n1 > d1 || n0 >= d0 {
          q0 := 1;
          var diff := Subb(n1, n0, d1, d0);
          n1, n0 := diff.0, diff.1;
        }
        if rp != null {
          rp.ll := Join(n1, n0);
        }
      } else {
        q0 := DivideShifted(n, d, bm, rp);
      }
    }
    result := Done(Join(q1, q0));
  }

  /** The high word fed to `divl` is below the normalised divisor. */
  lemma EstimateFits(n: UDWord, d: UDWord, bm: nat, n2: UWord, n1: UWord, n0: UWord, d1: UWord, d0: UWord)
    requires bm < 32 && Shifted(n, bm, n2, n1, n0) && Normalised(d, bm, d1, d0)
    ensures n2 < d1
  {
    hide Pow2;
    PowMonotone(bm, 31);
    PowerOfTwo32();
  }

  lemma NormalisedWords(d: UDWord, bm: nat, d1: UWord, d0: UWord)
    requires Normalised(d, bm, d1, d0)
    ensures Join(d1, d0) == d * Pow2(bm)
  {
  }

  /** A divisor with its top bit set goes at most once into any double word. */
  lemma TopBitDivision(n: UDWord, d: UDWord)
    requires d / B >= 0x8000_0000
    ensures n / d == if n >= d then 1 else 0
    ensures n % d == if n >= d then n - d else n
    ensures n >= d ==> (n - d) % (B * B) == n - d
  {
    DivisionUnique(n, d, if n >= d then 1 else 0, if n >= d then n - d else n);
  }

  /** The digit after the only correction, and the remainder as the machine forms it. */
  lemma FinalDigit(n: UDWord, d: UDWord, p: nat, x: UDWord, y: nat, dd: UDWord, est: UWord, q: int, m: UDWord)
    requires p > 0 && d * p == dd && y < B * B
    requires n * p - est * (d * p) == x - y && x - y < dd && 0 <= x - y + dd
    requires q == if y > x then est - 1 else est
    requires m == if y > x then (y - dd) % (B * B) else y
    ensures q == n / d
    ensures (x - m) % (B * B) == (n % d) * p
  {
    CorrectedDigit(n, d, p, x - y, est, q);
    WrappedRemainder(x, y, dd, m, if y > x then x - y + dd else x - y);
  }

  lemma CorrectedDigit(n: nat, d: nat, p: nat, rest: int, est: nat, q: int)
    requires p > 0 && n * p - est * (d * p) == rest && rest < d * p && 0 <= rest + d * p
    requires q == if rest < 0 then est - 1 else est
    ensures d > 0 && q == n / d
    ensures (n % d) * p == if rest < 0 then rest + d * p else rest
  {
    assert (est - 1) * (d * p) == est * (d * p) - d * p;
    ScaledDivision(n, d, p, q, if rest < 0 then rest + d * p else rest);
  }

  /** Two subtractions modulo B * B, the first possibly negative, give the true difference. */
  lemma WrappedRemainder(x: UDWord, y: nat, d: UDWord, m: UDWord, r: int)
    requires (y > x && m == (y - d) % (B * B) && r == x - y + d) || (y <= x && m == y && r == x - y)
    requires 0 <= r < B * B && y < B * B
    ensures (x - m) % (B * B) == r
  {
    if y > x && y < d { assert m == y - d + B * B; }
  }

  const MIN: DWord := -0x8000_0000_0000_0000

  function Signed(x: int): DWord { (x - MIN) % (B * B) + MIN }

  function Negdi2(x: int): DWord { Signed(-x) }

  function AsUnsigned(x: DWord): UDWord { x % (B * B) }

  /** After the sign is stripped, in wrapping arithmetic, the magnitude is exact. */
  lemma Magnitude(x: DWord)
    ensures AsUnsigned(if x < 0 then Negdi2(x) else x) == Abs(x)
  {
  }

  /** Restoring the sign of a magnitude, in wrapping arithmetic. */
  lemma SignRestored(q: int, negative: bool)
    ensures (if negative then Negdi2(Signed(q)) else Signed(q)) == Signed(if negative then -q else q)
  {
  }

  /** The one quotient of double words that is not a double word. */
  lemma QuotientFits(u: DWord, v: DWord)
    requires v != 0
    ensures Abs(u) / Abs(v) < B * B
    ensures Signed(TruncDiv(u, v)) == TruncDiv(u, v) <==> !(u == MIN && v == -1)
    ensures u == MIN && v == -1 ==> TruncDiv(u, v) == 0x8000_0000_0000_0000
  {
    hide TruncDiv, Signed, Abs;
    AbsOf(u, v);
    QuotientBounds(Abs(u), Abs(v));
    QuotientSign(u, v, Abs(u) / Abs(v));
    TruncDivForm(u, v);
  }

  lemma AbsOf(u: DWord, v: DWord)
    ensures Abs(u) < B * B && (v != 0 ==> Abs(v) > 0)
    ensures u == MIN && v == -1 ==> Abs(u) == 0x8000_0000_0000_0000 && Abs(v) == 1
  {
  }

  lemma TruncDivForm(u: int, v: int)
    requires v != 0
    ensures TruncDiv(u, v) == if (u < 0) == (v < 0) then Abs(u) / Abs(v) else -(Abs(u) / Abs(v))
  {
  }

  lemma QuotientSign(u: DWord, v: DWord, q: int)
    requires v != 0 && 0 <= q <= Abs(u)
    requires Abs(v) >= 2 ==> 2 * q <= Abs(u)
    requires Abs(v) == 1 ==> q == Abs(u)
    ensures var t: int := if (u < 0) == (v < 0) then q else -q;
      Signed(t) == t <==> !(u == MIN && v == -1)
  {
  }

  /** Signed division truncates for all pairs, except that MIN / -1 wraps. */
  method DivDi3(u: DWord, v: DWord) returns (w: Outcome<DWord>)
    ensures w.DivideError? <==> v == 0
    ensures v != 0 ==> (w.value == TruncDiv(u, v) <==> !(u == MIN && v == -1))
    ensures u == MIN && v == -1 ==> w == Done(MIN)
  {
    hide Signed;
    var negative := false;
    var uu, vv := u, v;
    if uu < 0 {
      negative := !negative;
      uu := Negdi2(uu);
    }
    if vv < 0 {
      negative := !negative;
      vv := Negdi2(vv);
    }
    Magnitude(u);
    Magnitude(v);
    var r := UDivModDi4(AsUnsigned(uu), AsUnsigned(vv), null);
    if r.DivideError? {
      return DivideError;
    }
    QuotientFits(u, v);
    SignRestored(r.value, negative);
    var q := Signed(r.value);
    if negative {
      q := Negdi2(q);
    }
    w := Done(q);
    SignedHalf();
  }

  lemma SignedHalf()
    ensures Signed(0x8000_0000_0000_0000) == MIN
  {
  }

  lemma SignedRemainder(u: DWord, v: DWord)
    requires v != 0
    ensures 0 <= Abs(u) % Abs(v) <= Abs(u) && Abs(u) % Abs(v) < Abs(v)
    ensures TruncMod(u, v) == if u < 0 then -(Abs(u) % Abs(v)) else Abs(u) % Abs(v)
    ensures Signed(TruncMod(u, v)) == TruncMod(u, v)
  {
    hide TruncDiv;
    DivideBy(Abs(u), Abs(v));
    ProductSign(u, v);
    SignedSmall(u, Abs(u) % Abs(v));
  }

  lemma SignedSmall(u: DWord, r: int)
    requires 0 <= r <= Abs(u)
    ensures u < 0 ==> Signed(-r) == -r
    ensures u >= 0 ==> Signed(r) == r
  {
  }

  /** The remainder takes the sign of the dividend, for every pair. */
  method ModDi3(u: DWord, v: DWord) returns (w: Outcome<DWord>)
    ensures w.DivideError? <==> v == 0
    ensures v != 0 ==> w.value == TruncMod(u, v)
  {
    hide Signed, TruncMod, Abs;
    var negative := false;
    var uu, vv := u, v;
    if uu < 0 {
      negative := !negative;
      uu := Negdi2(uu);
    }
    if vv < 0 {
      vv := Negdi2(vv);
    }
    Magnitude(u);
    Magnitude(v);
    AbsZero(v);
    var rest := new Cell();
    var r := UDivModDi4(AsUnsigned(uu), AsUnsigned(vv), rest);
    if r.DivideError? {
      return DivideError;
    }
    SignedRemainder(u, v);
    SignRestored(rest.ll, negative);
    var m := Signed(rest.ll);
    if negative {
      m := Negdi2(m);
    }
    w := Done(m);
  }

  lemma AbsZero(v: DWord)
    ensures Abs(v) == 0 <==> v == 0
  {
  }

  method UDivDi3(u: UDWord, v: UDWord) returns (w: Outcome<UDWord>)
    ensures w == if v == 0 then DivideError else Done(u / v)
  {
    w := UDivModDi4(u, v, null);
  }

  method UModDi3(u: UDWord, v: UDWord) returns (w: Outcome<UDWord>)
    ensures w == if v == 0 then DivideError else Done(u % v)
  {
    var rest := new Cell();
    var r := UDivModDi4(u, v, rest);
    if r.DivideError? {
      return DivideError;
    }
    QuotientBounds(u, v);
    w := Done(rest.ll);
  }
}
