/** Lower-case hexadecimal rendering, as Go's `fmt` verb `%0Nx` produces it, and its inverse. */
module Hex {

  const Digits: string := "0123456789abcdef"

  /** The digit character of a value below 16. */
  function Digit(d: nat): (c: char)
    requires d < 16
    ensures c in Digits
  {
    Digits[d]
  }

  /** The value of a hexadecimal digit character (0 for any other character). */
  function DigitValue(c: char): (d: nat)
    ensures d < 16
  {
    if '0' <= c <= '9' then (c - '0') as nat
    else if 'a' <= c <= 'f' then (c - 'a') as nat + 10
    else 0
  }

  lemma DigitValueOfDigit(d: nat)
    requires d < 16
    ensures DigitValue(Digit(d)) == d
  {
  }

  /** The shortest hexadecimal spelling of `n` (one digit for zero). */
  function HexDigits(n: nat): (s: string)
    ensures 1 <= |s|
    ensures forall i :: 0 <= i < |s| ==> s[i] in Digits
    decreases n
  {
    if n < 16 then [Digit(n)] else HexDigits(n / 16) + [Digit(n % 16)]
  }

  /** `k` zero characters. */
  function Zeros(k: nat): (s: string)
    ensures |s| == k
    ensures forall i :: 0 <= i < k ==> s[i] == '0'
  {
    if k == 0 then [] else Zeros(k - 1) + ['0']
  }

  /** `%0<width>x`: the hexadecimal digits of `n`, left-padded with zeros to `width`. */
  function Hex(n: nat, width: nat): (s: string)
    ensures |s| == if |HexDigits(n)| < width then width else |HexDigits(n)|
    ensures forall i :: 0 <= i < |s| ==> s[i] in Digits
  {
    var digits := HexDigits(n);
    if |digits| < width then Zeros(width - |digits|) + digits else digits
  }

  /** The value spelled by a string of hexadecimal digits (most significant first). */
  function ParseHex(s: string): nat
  {
    if s == [] then 0 else ParseHex(s[..|s| - 1]) * 16 + DigitValue(s[|s| - 1])
  }

  lemma {:induction false} ParseHexDigits(n: nat)
    ensures ParseHex(HexDigits(n)) == n
    decreases n
  {
    if n >= 16 {
      var s := HexDigits(n);
      assert s[..|s| - 1] == HexDigits(n / 16);
      ParseHexDigits(n / 16);
      DigitValueOfDigit(n % 16);
    } else {
      DigitValueOfDigit(n);
    }
  }

  lemma {:induction false} ParseHexLeadingZeros(k: nat, s: string)
    ensures ParseHex(Zeros(k) + s) == ParseHex(s)
    decreases |s|
  {
    if s == [] {
      assert Zeros(k) + s == Zeros(k);
      ZerosParse(k);
    } else {
      var t := Zeros(k) + s;
      assert t[..|t| - 1] == Zeros(k) + s[..|s| - 1];
      ParseHexLeadingZeros(k, s[..|s| - 1]);
    }
  }

  lemma {:induction false} ZerosParse(k: nat)
    ensures ParseHex(Zeros(k)) == 0
  {
    if k > 0 {
      assert Zeros(k)[..k - 1] == Zeros(k - 1);
      ZerosParse(k - 1);
    }
  }

  /** Round trip: the rendered text spells the number back, whatever the padding. */
  lemma HexRoundTrip(n: nat, width: nat)
    ensures ParseHex(Hex(n, width)) == n
  {
    var digits := HexDigits(n);
    ParseHexDigits(n);
    if |digits| < width {
      ParseHexLeadingZeros(width - |digits|, digits);
    }
  }

  /** A number below 16^k needs at most k digits. */
  lemma {:induction false} HexDigitsLength(n: nat, k: nat, bound: nat)
    requires 1 <= k && bound == Pow16(k) && n < bound
    ensures |HexDigits(n)| <= k
    decreases k
  {
    if n >= 16 {
      assert k > 1;
      HexDigitsLength(n / 16, k - 1, Pow16(k - 1));
    }
  }

  function Pow16(k: nat): (p: nat)
    ensures p >= 1
  {
    if k == 0 then 1 else 16 * Pow16(k - 1)
  }

  /** Rendering a value that fits in `width` digits yields exactly `width` characters. */
  lemma HexWidth(n: nat, width: nat)
    requires 1 <= width && n < Pow16(width)
    ensures |Hex(n, width)| == width
  {
    HexDigitsLength(n, width, Pow16(width));
  }

  /** Two numbers rendered with the same padding give the same text only when they are equal. */
  lemma HexInjective(m: nat, n: nat, width: nat)
    ensures Hex(m, width) == Hex(n, width) <==> m == n
  {
    HexRoundTrip(m, width);
    HexRoundTrip(n, width);
  }

  /** Appending a digit: the spelling of `16q + d` is that of `q` followed by `d`. */
  lemma HexDigitsStep(n: nat, q: nat, d: nat, s: string)
    requires 1 <= q && d < 16 && n == q * 16 + d && HexDigits(q) == s
    ensures HexDigits(n) == s + [Digit(d)]
  {
    assert n / 16 == q && n % 16 == d;
  }

  /** The spelling of a number with two, three or four significant nibbles. */
  lemma TwoDigits(n: nat, d1: nat, d0: nat)
    requires 0 < d1 < 16 && d0 < 16 && n == d1 * 16 + d0
    ensures HexDigits(n) == [Digit(d1), Digit(d0)]
  {
    HexDigitsStep(n, d1, d0, [Digit(d1)]);
  }

  lemma ThreeDigits(n: nat, d2: nat, d1: nat, d0: nat)
    requires 0 < d2 < 16 && d1 < 16 && d0 < 16 && n == (d2 * 16 + d1) * 16 + d0
    ensures HexDigits(n) == [Digit(d2), Digit(d1), Digit(d0)]
  {
    var q := d2 * 16 + d1;
    TwoDigits(q, d2, d1);
    HexDigitsStep(n, q, d0, [Digit(d2), Digit(d1)]);
  }

  lemma FourDigits(n: nat, d3: nat, d2: nat, d1: nat, d0: nat)
    requires 0 < d3 < 16 && d2 < 16 && d1 < 16 && d0 < 16
    requires n == ((d3 * 16 + d2) * 16 + d1) * 16 + d0
    ensures HexDigits(n) == [Digit(d3), Digit(d2), Digit(d1), Digit(d0)]
  {
    var q := (d3 * 16 + d2) * 16 + d1;
    ThreeDigits(q, d3, d2, d1);
    HexDigitsStep(n, q, d0, [Digit(d3), Digit(d2), Digit(d1)]);
  }

  /** Padding a spelling shorter than the width: the zeros come first. */
  lemma Padded(n: nat, width: nat, digits: string)
    requires HexDigits(n) == digits && |digits| <= width
    ensures Hex(n, width) == Zeros(width - |digits|) + digits
  {
  }

  /** `%04x` of a number with four significant nibbles is its four digits. */
  lemma HexFourFull(n: nat, d3: nat, d2: nat, d1: nat, d0: nat)
    requires 0 < d3 < 16 && d2 < 16 && d1 < 16 && d0 < 16
    requires n == ((d3 * 16 + d2) * 16 + d1) * 16 + d0
    ensures Hex(n, 4) == [Digit(d3), Digit(d2), Digit(d1), Digit(d0)]
  {
    FourDigits(n, d3, d2, d1, d0);
    Padded(n, 4, [Digit(d3), Digit(d2), Digit(d1), Digit(d0)]);
  }

  /** `%04x` of a number with three significant nibbles: one leading zero. */
  lemma HexFourOneZero(n: nat, d2: nat, d1: nat, d0: nat)
    requires 0 < d2 < 16 && d1 < 16 && d0 < 16 && n == (d2 * 16 + d1) * 16 + d0
    ensures Hex(n, 4) == [Digit(0), Digit(d2), Digit(d1), Digit(d0)]
  {
    ThreeDigits(n, d2, d1, d0);
    Padded(n, 4, [Digit(d2), Digit(d1), Digit(d0)]);
    assert Zeros(1) == [Digit(0)];
  }

  /** `%04x` of a number with two significant nibbles: two leading zeros. */
  lemma HexFourTwoZeros(n: nat, d1: nat, d0: nat)
    requires 0 < d1 < 16 && d0 < 16 && n == d1 * 16 + d0
    ensures Hex(n, 4) == [Digit(0), Digit(0), Digit(d1), Digit(d0)]
  {
    TwoDigits(n, d1, d0);
    Padded(n, 4, [Digit(d1), Digit(d0)]);
    assert Zeros(2) == [Digit(0), Digit(0)];
  }

  /** `%04x` of a number below 16: three leading zeros. */
  lemma HexFourThreeZeros(n: nat)
    requires n < 16
    ensures Hex(n, 4) == [Digit(0), Digit(0), Digit(0), Digit(n)]
  {
    assert HexDigits(n) == [Digit(n)];
    Padded(n, 4, [Digit(n)]);
    assert Zeros(3) == [Digit(0), Digit(0), Digit(0)];
  }

  /** `%04x` of the word with nibbles d3 d2 d1 d0 (most significant first) is those four
      digits, leading zeros kept. */
  lemma HexFour(n: nat, d3: nat, d2: nat, d1: nat, d0: nat)
    requires d3 < 16 && d2 < 16 && d1 < 16 && d0 < 16
    requires n == ((d3 * 16 + d2) * 16 + d1) * 16 + d0
    ensures Hex(n, 4) == [Digit(d3), Digit(d2), Digit(d1), Digit(d0)]
  {
    if d3 > 0 {
      HexFourFull(n, d3, d2, d1, d0);
    } else if d2 > 0 {
      assert n == (d2 * 16 + d1) * 16 + d0;
      HexFourOneZero(n, d2, d1, d0);
    } else if d1 > 0 {
      assert n == d1 * 16 + d0;
      HexFourTwoZeros(n, d1, d0);
    } else {
      assert n == d0;
      HexFourThreeZeros(d0);
    }
  }

  /** `%02x` of a number with two significant nibbles is its two digits. */
  lemma HexTwoFull(n: nat, d1: nat, d0: nat)
    requires 0 < d1 < 16 && d0 < 16 && n == d1 * 16 + d0
    ensures Hex(n, 2) == [Digit(d1), Digit(d0)]
  {
    TwoDigits(n, d1, d0);
    Padded(n, 2, [Digit(d1), Digit(d0)]);
  }

  /** `%02x` of a number below 16: one leading zero. */
  lemma HexTwoOneZero(n: nat)
    requires n < 16
    ensures Hex(n, 2) == [Digit(0), Digit(n)]
  {
    assert HexDigits(n) == [Digit(n)];
    Padded(n, 2, [Digit(n)]);
    assert Zeros(1) == [Digit(0)];
  }

  /** `%02x` of the value with nibbles d1 d0 is those two digits, a leading zero kept. */
  lemma HexTwo(n: nat, d1: nat, d0: nat)
    requires d1 < 16 && d0 < 16 && n == d1 * 16 + d0
    ensures Hex(n, 2) == [Digit(d1), Digit(d0)]
  {
    if d1 == 0 {
      assert n == d0;
      HexTwoOneZero(d0);
    } else {
      HexTwoFull(n, d1, d0);
    }
  }
}
