/** The arithmetic of the binary instructions (core/dcpu16_instruction.go): each
    computes its result in 32 bits, as Go's `uint32`, and splits it into the new B and
    the new EX. */
module Arithmetic {
  import opened Words
  import opened Bits

  /** Go's `x << n` on `uint32`: bits past 32 are lost, and a count of 32 or more
      leaves nothing. */
  function Shl32(x: DWord, n: nat): DWord
  {
    if n >= 32 then 0 else Wrap32(x * Pow2(n))
  }

  /** Go's `x >> n` on `uint32`: a count of 32 or more leaves nothing. */
  function Shr32(x: DWord, n: nat): DWord
  {
    if n >= 32 then 0 else Quotient(x, Pow2(n))
  }

  /** Division of a 32-bit value by a positive divisor stays within 32 bits. */
  function Quotient(x: DWord, p: nat): (q: DWord)
    requires p >= 1
    ensures q == x / p
  {
    DivShrinks(x, p);
    x / p
  }

  lemma DivShrinks(x: nat, p: nat)
    requires p >= 1
    ensures x / p <= x
  {
    assert x == (x / p) * p + x % p;
    MulMonotone(x / p, 1, p);
  }

  /** ADD: `b + a` in 32 bits; B is the low half, EX the carry. The pair is the exact
      sum, so EX is 1 exactly on overflow. */
  function AddWords(b: Word, a: Word): (r: (Word, Word))
    ensures r.1 <= 1 && r.1 * WordSpan + r.0 == b + a
    ensures r.1 == 1 <==> b + a >= WordSpan
  {
    var (high, low) := SplitDWord(Wrap32(b + a));
    (low, high)
  }

  /** SUB: `b - a` wrapped to 32 bits; B is the difference modulo 2^16 and EX is 0xffff
      exactly on underflow. */
  function SubWords(b: Word, a: Word): (r: (Word, Word))
    ensures b >= a ==> r == (b - a, 0)
    ensures b < a ==> r == (b - a + WordSpan, 0xffff)
  {
    var (high, low) := SplitDWord(Wrap32(b - a));
    (low, high)
  }

  /** SUB undoes ADD on B. */
  lemma SubUndoesAdd(b: Word, a: Word)
    ensures SubWords(AddWords(b, a).0, a).0 == b
  {
  }

  /** MUL: `b * a` never exceeds 32 bits; B and EX are its low and high halves. */
  function MulWords(b: Word, a: Word): (r: (Word, Word))
    ensures r.1 * WordSpan + r.0 == b * a
  {
    ProductBound(b, a);
    var (high, low) := SplitDWord(Wrap32(b * a));
    (low, high)
  }

  lemma ProductBound(b: Word, a: Word)
    ensures 0 <= b * a < DWordSpan
  {
    MulMonotone(a, b, 0xffff);
    MulMonotone(0xffff, a, 0xffff);
  }

  /** DIV: zero for a zero divisor; otherwise `(b << 16) / a` split, so B is the
      quotient and EX is the fraction `(b mod a) / a` scaled by 2^16. */
  function DivWords(b: Word, a: Word): (r: (Word, Word))
    ensures a == 0 ==> r == (0, 0)
    ensures a != 0 ==> r == (b / a, ((b % a) * WordSpan) / a)
  {
    if a == 0 then (0, 0)
    else
      FixedPointQuotient(b, a);
      SplitDWord(Wrap32(b * WordSpan) / a)
  }

  /** `(b << 16) / d` splits into the quotient and the scaled remainder. */
  lemma FixedPointQuotient(b: Word, d: nat)
    requires d > 0
    ensures Wrap32(b * WordSpan) / d < DWordSpan
    ensures SplitDWord(Wrap32(b * WordSpan) / d) == (b / d, ((b % d) * WordSpan) / d)
  {
    assert Wrap32(b * WordSpan) == b * WordSpan;
    ScaledQuotient(b, d);
    DivShrinks(b, d);
    SplitUnique(b / d, ((b % d) * WordSpan) / d, (b * WordSpan) / d);
  }

  /** b * 2^16 / d is the quotient b / d in the high half and the fraction in the low. */
  lemma ScaledQuotient(b: nat, d: nat)
    requires d > 0
    ensures (b * WordSpan) / d == (b / d) * WordSpan + ((b % d) * WordSpan) / d
    ensures 0 <= ((b % d) * WordSpan) / d < WordSpan
  {
    var q, r := b / d, b % d;
    var f, z := (r * WordSpan) / d, (r * WordSpan) % d;
    var p := q * d;
    assert b == p + r;
    assert r * WordSpan == f * d + z;
    assert (q * WordSpan + f) * d == p * WordSpan + f * d;
    DivUnique(b * WordSpan, d, q * WordSpan + f, z);
    FractionBound(r, d, f, z);
  }

  /** A remainder below the divisor, scaled by 2^16 and divided, stays below 2^16. */
  lemma FractionBound(r: int, d: int, f: int, z: int)
    requires 0 <= r < d && 0 <= z < d && r * WordSpan == f * d + z
    ensures 0 <= f < WordSpan
  {
    if f >= WordSpan {
      MulMonotone(d, WordSpan, f);
      assert false;
    }
    NegativeFactor(d, f);
  }

  /** A negative factor pulls a positive one at least its own size below zero. */
  lemma NegativeFactor(d: nat, f: int)
    ensures f < 0 ==> f * d + d <= 0
  {
    if f < 0 {
      MulMonotone(d, 1, -f);
    }
  }

  lemma SplitUnique(high: Word, low: Word, x: DWord)
    requires x == high * WordSpan + low
    ensures SplitDWord(x) == (high, low)
  {
    JoinSplit(high, low);
  }

  lemma JoinSplit(high: Word, low: Word)
    ensures SplitDWord(high * WordSpan + low) == (high, low)
  {
    assert JoinDWord(high, low) == high * WordSpan + low;
  }

  /** MOD: zero for a zero divisor, otherwise the remainder; with DIV's B it rebuilds
      the dividend. */
  function ModWord(b: Word, a: Word): (r: Word)
    ensures a == 0 ==> r == 0
    ensures a != 0 ==> r < a && DivWords(b, a).0 * a + r == b
  {
    if a == 0 then 0 else b % a
  }

  /** SHL: `b << a` in 32 bits; B and EX are its low and high halves. Up to a shift of
      16 nothing is lost, so the pair is b * 2^a; from 32 on both are zero. */
  function ShlWords(b: Word, a: Word): (r: (Word, Word))
    ensures a <= 16 ==> r.1 * WordSpan + r.0 == b * Pow2(a)
    ensures a >= 32 ==> r == (0, 0)
  {
    ShiftedBound(b, a);
    var (high, low) := SplitDWord(Shl32(b, a));
    (low, high)
  }

  lemma ShiftedBound(b: Word, a: nat)
    ensures a <= 16 ==> Shl32(b, a) == b * Pow2(a)
  {
    if a <= 16 {
      var p := Pow2(a);
      Pow2Monotone(a, 16);
      Pow2Sixteen();
      MulMonotone(b, p, WordSpan);
      assert b * p < DWordSpan;
    }
  }

  /** SHR: `(b << 16) >> a`; B and EX are its high and low halves. B is b / 2^a and EX
      the bits shifted out, as a fraction scaled by 2^16; from 32 on both are zero. */
  function ShrWords(b: Word, a: Word): (r: (Word, Word))
    ensures a < 32 ==> r == (b / Pow2(a), ((b % Pow2(a)) * WordSpan) / Pow2(a))
    ensures a >= 32 ==> r == (0, 0)
  {
    assert Shl32(b, 16) == Wrap32(b * WordSpan) by {
      Pow2Sixteen();
    }
    FixedPointQuotient(b, Pow2(a));
    SplitDWord(Shr32(Shl32(b, 16), a))
  }

  /** A right shift below 16 is a DIV by the matching power of two, EX included. */
  lemma ShrIsDivByPowerOfTwo(b: Word, a: Word)
    requires a < 16
    ensures Pow2(a) < WordSpan
    ensures ShrWords(b, a) == DivWords(b, Pow2(a))
  {
    Pow2Monotone(a, 15);
    Pow2Sixteen();
  }


}
