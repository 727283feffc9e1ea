/** The 64K-word memory (core/memory.go). */
module Memory {
  import opened Words

  const MemorySize: int := 0x1_0000

  /** Memory contents: one word for every 16-bit address. */
  type MemoryImage = s: seq<Word> | |s| == MemorySize witness seq(MemorySize, _ => 0)

  /** Every address a word can hold indexes the memory: no bounds check is needed. */
  lemma EveryAddressInRange(m: MemoryImage, address: Word)
    ensures 0 <= address < |m|
  {
  }

  /** After a write, the written address reads back the new value and every other
      address reads back what it held before. */
  lemma ReadAfterWrite(m: MemoryImage, address: Word, value: Word, other: Word)
    ensures m[address := value][address] == value
    ensures other != address ==> m[address := value][other] == m[other]
  {
  }

  /** `D16MemoryState`: the memory array, written in place. */
  class D16MemoryState {
    const data: array<Word>

    ghost predicate Valid()
    {
      data.Length == MemorySize
    }

    /** The abstract value of this memory. */
    function Contents(): (m: MemoryImage)
      reads data
      requires Valid()
      ensures forall a: Word :: m[a] == data[a]
    {
      data[..]
    }

    /** Go's zero value: every word zero. */
    constructor ()
      ensures Valid() && fresh(data)
      ensures Contents() == seq(MemorySize, _ => 0)
    {
      data := new Word[MemorySize](_ => 0);
    }

    function ReadMemory(address: Word): (w: Word)
      reads data
      requires Valid()
      ensures w == Contents()[address]
    {
      data[address]
    }

    method WriteMemory(address: Word, value: Word)
      requires Valid()
      modifies data
      ensures Valid()
      ensures Contents() == old(Contents())[address := value]
    {
      data[address] := value;
    }
  }
}
