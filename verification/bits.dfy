/** Powers of two and the bitwise operators `&`, `|` and `^` on words, defined bit by
    bit on integers. */
module Bits {
  import opened Words

  /** 2^n. */
  function Pow2(n: nat): (p: nat)
    ensures p >= 1
  {
    if n == 0 then 1 else 2 * Pow2(n - 1)
  }

  lemma {:induction false} Pow2Monotone(m: nat, n: nat)
    requires m <= n
    ensures Pow2(m) <= Pow2(n)
  {
    if m < n {
      Pow2Monotone(m, n - 1);
    }
  }

  lemma Pow2Sixteen()
    ensures Pow2(16) == WordSpan
  {
    assert Pow2(4) == 16;
    assert Pow2(8) == 256 by {
      assert Pow2(5) == 32;
      assert Pow2(6) == 64;
      assert Pow2(7) == 128;
    }
    assert Pow2(12) == 4096 by {
      assert Pow2(9) == 512;
      assert Pow2(10) == 1024;
      assert Pow2(11) == 2048;
    }
    assert Pow2(13) == 8192;
    assert Pow2(14) == 16384;
    assert Pow2(15) == 32768;
  }

  /** Multiplying by a larger factor gives a larger product. */
  lemma MulMonotone(b: nat, x: nat, y: nat)
    requires x <= y
    ensures b * x <= b * y
  {
    assert b * y == b * x + b * (y - x);
  }

  /** Euclidean division is determined by any decomposition with a small remainder. */
  lemma DivUnique(x: int, d: int, k: int, z: int)
    requires d > 0 && 0 <= z < d && x == k * d + z
    ensures x / d == k
  {
    var q := x / d;
    assert (k - q) * d == x % d - z;
    ZeroFactor(k - q, d);
  }

  lemma ZeroFactor(t: int, d: int)
    requires d > 0 && -d < t * d < d
    ensures t == 0
  {
    if t >= 1 {
      MulMonotone(d, 1, t);
      assert false;
    } else if t <= -1 {
      assert false;
    }
  }

  /** Bit `i` of `x`. */
  predicate Bit(x: nat, i: nat)
  {
    (x / Pow2(i)) % 2 == 1
  }

  /** Bit `i + 1` of `x` is bit `i` of `x / 2`. */
  lemma BitOfHalf(x: nat, i: nat)
    ensures Bit(x, i + 1) == Bit(x / 2, i)
  {
    var p := Pow2(i);
    var h, s := x / 2, x % 2;
    var k, t := h / p, h % p;
    assert x == (2 * p) * k + (2 * t + s);
    DivUnique(x, 2 * p, k, 2 * t + s);
  }

  /** Bit 0 is the remainder modulo two. */
  lemma BitZero(x: nat)
    ensures Bit(x, 0) <==> x % 2 == 1
  {
    assert Pow2(0) == 1;
  }

  /** Splitting off the low bit of `c + 2h`. */
  lemma LowBit(c: nat, h: nat)
    requires c <= 1
    ensures (c + 2 * h) % 2 == c && (c + 2 * h) / 2 == h
  {
  }

  /** The low `n` bits of `b & a`, least significant first. */
  function AndBits(b: nat, a: nat, n: nat): (r: nat)
    ensures r < Pow2(n)
  {
    if n == 0 then 0
    else (if b % 2 == 1 && a % 2 == 1 then 1 else 0) + 2 * AndBits(b / 2, a / 2, n - 1)
  }

  /** The low `n` bits of `b | a`. */
  function OrBits(b: nat, a: nat, n: nat): (r: nat)
    ensures r < Pow2(n)
  {
    if n == 0 then 0
    else (if b % 2 == 1 || a % 2 == 1 then 1 else 0) + 2 * OrBits(b / 2, a / 2, n - 1)
  }

  /** The low `n` bits of `b ^ a`. */
  function XorBits(b: nat, a: nat, n: nat): (r: nat)
    ensures r < Pow2(n)
  {
    if n == 0 then 0
    else (if (b % 2 == 1) != (a % 2 == 1) then 1 else 0) + 2 * XorBits(b / 2, a / 2, n - 1)
  }

  /** Bit i of `AndBits` is the conjunction of the operands' bits i. */
  lemma {:induction false} AndBitsBit(b: nat, a: nat, n: nat, i: nat)
    requires i < n
    ensures Bit(AndBits(b, a, n), i) == (Bit(b, i) && Bit(a, i))
  {
    var r, c, h := AndBits(b, a, n), (if b % 2 == 1 && a % 2 == 1 then 1 else 0), AndBits(b / 2, a / 2, n - 1);
    assert r == c + 2 * h;
    LowBit(c, h);
    if i == 0 {
      BitZero(r);
      BitZero(b);
      BitZero(a);
    } else {
      AndBitsBit(b / 2, a / 2, n - 1, i - 1);
      BitOfHalf(r, i - 1);
      BitOfHalf(b, i - 1);
      BitOfHalf(a, i - 1);
    }
  }

  /** Bit i of `OrBits` is the disjunction of the operands' bits i. */
  lemma {:induction false} OrBitsBit(b: nat, a: nat, n: nat, i: nat)
    requires i < n
    ensures Bit(OrBits(b, a, n), i) == (Bit(b, i) || Bit(a, i))
  {
    var r, c, h := OrBits(b, a, n), (if b % 2 == 1 || a % 2 == 1 then 1 else 0), OrBits(b / 2, a / 2, n - 1);
    assert r == c + 2 * h;
    LowBit(c, h);
    if i == 0 {
      BitZero(r);
      BitZero(b);
      BitZero(a);
    } else {
      OrBitsBit(b / 2, a / 2, n - 1, i - 1);
      BitOfHalf(r, i - 1);
      BitOfHalf(b, i - 1);
      BitOfHalf(a, i - 1);
    }
  }

  /** Bit i of `XorBits` says whether the operands' bits i differ. */
  lemma {:induction false} XorBitsBit(b: nat, a: nat, n: nat, i: nat)
    requires i < n
    ensures Bit(XorBits(b, a, n), i) == (Bit(b, i) != Bit(a, i))
  {
    var r, c, h := XorBits(b, a, n), (if (b % 2 == 1) != (a % 2 == 1) then 1 else 0), XorBits(b / 2, a / 2, n - 1);
    assert r == c + 2 * h;
    LowBit(c, h);
    if i == 0 {
      BitZero(r);
      BitZero(b);
      BitZero(a);
    } else {
      XorBitsBit(b / 2, a / 2, n - 1, i - 1);
      BitOfHalf(r, i - 1);
      BitOfHalf(b, i - 1);
      BitOfHalf(a, i - 1);
    }
  }

  /** Numbers below 2^n are determined by their low n bits. */
  lemma {:induction false} SameBits(x: nat, y: nat, n: nat)
    requires x < Pow2(n) && y < Pow2(n)
    requires forall i :: 0 <= i < n ==> Bit(x, i) == Bit(y, i)
    ensures x == y
  {
    if n > 0 {
      assert Bit(x, 0) == Bit(y, 0);
      forall i | 0 <= i < n - 1
        ensures Bit(x / 2, i) == Bit(y / 2, i)
      {
        BitOfHalf(x, i);
        BitOfHalf(y, i);
      }
      SameBits(x / 2, y / 2, n - 1);
    }
  }

  /** Every bit of `AndBits` over a word's sixteen bits. */
  lemma AndBitsWord(b: nat, a: nat)
    ensures forall i :: 0 <= i < 16 ==> Bit(AndBits(b, a, 16), i) == (Bit(b, i) && Bit(a, i))
  {
    forall i | 0 <= i < 16 {
      AndBitsBit(b, a, 16, i);
    }
  }

  /** `b & a` on words: bit i is set exactly when it is set in both. */
  function And(b: Word, a: Word): (r: Word)
    ensures forall i :: 0 <= i < 16 ==> Bit(r, i) == (Bit(b, i) && Bit(a, i))
  {
    Pow2Sixteen();
    AndBitsWord(b, a);
    AndBits(b, a, 16)
  }

  /** Every bit of `OrBits` over a word's sixteen bits. */
  lemma OrBitsWord(b: nat, a: nat)
    ensures forall i :: 0 <= i < 16 ==> Bit(OrBits(b, a, 16), i) == (Bit(b, i) || Bit(a, i))
  {
    forall i | 0 <= i < 16 {
      OrBitsBit(b, a, 16, i);
    }
  }

  /** `b | a` on words: bit i is set exactly when it is set in either. */
  function Or(b: Word, a: Word): (r: Word)
    ensures forall i :: 0 <= i < 16 ==> Bit(r, i) == (Bit(b, i) || Bit(a, i))
  {
    Pow2Sixteen();
    OrBitsWord(b, a);
    OrBits(b, a, 16)
  }

  /** Every bit of `XorBits` over a word's sixteen bits. */
  lemma XorBitsWord(b: nat, a: nat)
    ensures forall i :: 0 <= i < 16 ==> Bit(XorBits(b, a, 16), i) == (Bit(b, i) != Bit(a, i))
  {
    forall i | 0 <= i < 16 {
      XorBitsBit(b, a, 16, i);
    }
  }

  /** `b ^ a` on words: bit i is set exactly when the operands' bits i differ. */
  function Xor(b: Word, a: Word): (r: Word)
    ensures forall i :: 0 <= i < 16 ==> Bit(r, i) == (Bit(b, i) != Bit(a, i))
  {
    Pow2Sixteen();
    XorBitsWord(b, a);
    XorBits(b, a, 16)
  }

  /** `b & a` is zero exactly when the words share no set bit (the test IFB makes). */
  lemma AndZeroIffDisjoint(b: Word, a: Word)
    ensures And(b, a) == 0 <==> forall i :: 0 <= i < 16 ==> !(Bit(b, i) && Bit(a, i))
  {
    Pow2Sixteen();
    forall i | 0 <= i < 16
      ensures Bit(And(b, a), i) == (Bit(b, i) && Bit(a, i))
    {
      AndBitsBit(b, a, 16, i);
    }
    if forall i :: 0 <= i < 16 ==> !(Bit(b, i) && Bit(a, i)) {
      forall i | 0 <= i < 16
        ensures Bit(And(b, a), i) == Bit(0, i)
      {
      }
      SameBits(And(b, a), 0, 16);
    }
  }

  /** XOR with the same word twice gives the word back. */
  lemma XorInvolution(b: Word, a: Word)
    ensures Xor(Xor(b, a), a) == b
  {
    Pow2Sixteen();
    forall i | 0 <= i < 16
      ensures Bit(Xor(Xor(b, a), a), i) == Bit(b, i)
    {
      XorBitsBit(Xor(b, a), a, 16, i);
      XorBitsBit(b, a, 16, i);
    }
    SameBits(Xor(Xor(b, a), a), b, 16);
  }

  /** AND and BOR absorb each other: masking b with (b | a), or merging b with (b & a),
      gives b. */
  lemma Absorption(b: Word, a: Word)
    ensures And(b, Or(b, a)) == b
    ensures Or(b, And(b, a)) == b
  {
    Pow2Sixteen();
    forall i | 0 <= i < 16
      ensures Bit(And(b, Or(b, a)), i) == Bit(b, i)
      ensures Bit(Or(b, And(b, a)), i) == Bit(b, i)
    {
      AndBitsBit(b, Or(b, a), 16, i);
      OrBitsBit(b, a, 16, i);
      OrBitsBit(b, And(b, a), 16, i);
      AndBitsBit(b, a, 16, i);
    }
    SameBits(And(b, Or(b, a)), b, 16);
    SameBits(Or(b, And(b, a)), b, 16);
  }
}
