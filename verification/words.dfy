/** Word types and the conversion helpers of core/model.go. */
module Words {

  /** `Word` (uint16): the machine's storage unit. */
  type Word = x: int | 0 <= x < 0x1_0000
  /** `SWord` (int16). */
  type SWord = x: int | -0x8000 <= x < 0x8000
  /** `DWord` (uint32): the width of intermediate arithmetic. */
  type DWord = x: int | 0 <= x < 0x1_0000_0000
  /** `DSWord` (int32). */
  type DSWord = x: int | -0x8000_0000 <= x < 0x8000_0000

  const WordSpan: int := 0x1_0000
  const DWordSpan: int := 0x1_0000_0000

  /** Truncation of an integer to 16 bits, as Go's `Word(x)` conversion does. */
  function Wrap(x: int): Word
  {
    x % WordSpan
  }

  /** Wrapping an intermediate sum does not change the wrapped total. */
  lemma WrapAdd(x: int, n: int)
    ensures Wrap(Wrap(x) + n) == Wrap(x + n)
  {
    assert x == (x / WordSpan) * WordSpan + Wrap(x);
  }

  /** Truncation of an integer to 32 bits, as Go's `uint32` arithmetic does. */
  function Wrap32(x: int): DWord
  {
    x % DWordSpan
  }

  /** `Signed`: the word holding the two's-complement bits of a signed word. */
  function Signed(s: SWord): (w: Word)
    ensures s >= 0 ==> w == s
    ensures s < 0 ==> w == s + WordSpan
  {
    Wrap(s)
  }

  /** `Word.AsDSigned`: reinterpret the word as int16, then widen to int32. */
  function AsDSigned(w: Word): (d: DSWord)
    ensures -0x8000 <= d < 0x8000
    ensures w < 0x8000 ==> d == w
    ensures w >= 0x8000 ==> d == w - WordSpan
  {
    if w < 0x8000 then w else w - WordSpan
  }

  /** `Signed` and `AsDSigned` are inverse: no information is lost either way. */
  lemma SignedRoundTrip(s: SWord, w: Word)
    ensures AsDSigned(Signed(s)) == s
    ensures Signed(AsDSigned(w) as SWord) == w
  {
  }

  /** `DWord.Split`: the high and low halves of a 32-bit value. */
  function SplitDWord(d: DWord): (hl: (Word, Word))
    ensures hl.0 * WordSpan + hl.1 == d
  {
    (d / WordSpan, d % WordSpan)
  }

  /** The inverse of `SplitDWord`: glue a high and a low half together. */
  function JoinDWord(high: Word, low: Word): (d: DWord)
    ensures SplitDWord(d) == (high, low)
  {
    high * WordSpan + low
  }

  /** `DSWord.Split`: split the 32-bit two's-complement bits of a signed value. */
  function SplitDSWord(x: DSWord): (hl: (Word, Word))
    ensures hl == SplitDWord(Wrap32(x))
    ensures JoinDWord(hl.0, hl.1) == Wrap32(x)
  {
    SplitDWord(Wrap32(x))
  }

  /** Sign extension: the high half of a widened signed word is all zeros or all ones,
      and the low half is the word itself. */
  lemma SignExtension(w: Word)
    ensures SplitDSWord(AsDSigned(w)).0 == (if w < 0x8000 then 0 else 0xffff)
    ensures SplitDSWord(AsDSigned(w)).1 == w
  {
    if w >= 0x8000 {
      assert Wrap32(AsDSigned(w)) == w - WordSpan + DWordSpan;
    }
  }
}
