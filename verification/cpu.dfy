/** The CPU register file (core/cpu.go): eight registers, PC, SP and EX. */
module Cpu {
  import opened Words
  import opened Registers

  type RegisterFile = s: seq<Word> | |s| == 8 witness [0, 0, 0, 0, 0, 0, 0, 0]

  /** The abstract value of a `D16CPU`. */
  datatype CpuState = CpuState(registers: RegisterFile, pc: Word, sp: Word, ex: Word)
  {
    /** `WriteRegister`: only the named register changes. */
    function WithRegister(id: RegisterId, value: Word): (c: CpuState)
      ensures c.registers[id] == value
      ensures forall j :: 0 <= j < 8 && j != id ==> c.registers[j] == registers[j]
      ensures c.pc == pc && c.sp == sp && c.ex == ex
    {
      this.(registers := registers[id := value])
    }

    /** `ReadIncPC`: the old PC, and PC advanced by one modulo 2^16. */
    function ReadIncPC(): (r: (Word, CpuState))
      ensures r.0 == pc
      ensures r.1 == this.(pc := if pc == 0xffff then 0 else pc + 1)
    {
      (pc, this.(pc := Wrap(pc + 1)))
    }

    /** `ReadIncSP` (SP++): the old SP, and SP advanced by one modulo 2^16. */
    function ReadIncSP(): (r: (Word, CpuState))
      ensures r.0 == sp
      ensures r.1 == this.(sp := if sp == 0xffff then 0 else sp + 1)
    {
      (sp, this.(sp := Wrap(sp + 1)))
    }

    /** `DecReadSP` (--SP): SP moved back by one modulo 2^16, and that new SP. */
    function DecReadSP(): (r: (Word, CpuState))
      ensures r.0 == (if sp == 0 then 0xffff else sp - 1)
      ensures r.1 == this.(sp := r.0)
    {
      var sp' := Wrap(sp - 1);
      (sp', this.(sp := sp'))
    }
  }

  /** The state `D16CPU.Init` establishes. */
  function InitialCpu(): (c: CpuState)
    ensures forall id: RegisterId :: c.registers[id] == 0
    ensures c.pc == 0 && c.sp == 0xffff && c.ex == 0
  {
    CpuState([0, 0, 0, 0, 0, 0, 0, 0], 0, 0xffff, 0)
  }

  /** `--SP` then `SP++` gives SP back, and both name the same stack slot. */
  lemma DecThenIncRestoresSP(c: CpuState)
    ensures c.DecReadSP().1.ReadIncSP().1 == c
    ensures c.DecReadSP().1.ReadIncSP().0 == c.DecReadSP().0
  {
  }

  /** `SP++` then `--SP` gives SP back as well. */
  lemma IncThenDecRestoresSP(c: CpuState)
    ensures c.ReadIncSP().1.DecReadSP().1 == c
    ensures c.ReadIncSP().1.DecReadSP().0 == c.ReadIncSP().0
  {
  }

  /** `D16CPU`: the register file, updated in place. */
  class D16CPU {
    const registers: array<Word>  // registers A-J, indexed by RegisterId
    var pc: Word                  // program counter
    var sp: Word                  // stack pointer
    var ex: Word                  // extra/excess

    ghost predicate Valid()
    {
      registers.Length == 8
    }

    /** The abstract value of this CPU. */
    function State(): (c: CpuState)
      reads this, registers
      requires Valid()
      ensures c.pc == pc && c.sp == sp && c.ex == ex
      ensures forall id: RegisterId :: c.registers[id] == registers[id]
    {
      CpuState(registers[..], pc, sp, ex)
    }

    /** A CPU as Go's zero value leaves it: every field zero (SP too, until `Init`). */
    constructor ()
      ensures Valid() && fresh(registers)
      ensures State() == CpuState([0, 0, 0, 0, 0, 0, 0, 0], 0, 0, 0)
    {
      registers := new Word[8](_ => 0);
      pc, sp, ex := 0, 0, 0;
    }

    /** `Init`: clear every register, PC and EX; SP starts at 0xffff. */
    method Init()
      requires Valid()
      modifies this, registers
      ensures Valid()
      ensures State() == InitialCpu()
    {
      for i := 0 to registers.Length
        invariant forall j :: 0 <= j < i ==> registers[j] == 0
      {
        registers[i] := 0x0000;
      }
      pc := 0x0000;
      sp := 0xffff;
      ex := 0x0000;
    }

    function Register(id: RegisterId): (w: Word)
      reads this, registers
      requires Valid()
      ensures w == State().registers[id]
    {
      registers[id]
    }

    method WriteRegister(id: RegisterId, value: Word)
      requires Valid()
      modifies registers
      ensures Valid()
      ensures State() == old(State()).WithRegister(id, value)
    {
      registers[id] := value;
    }

    function PC(): (w: Word)
      reads this, registers
      requires Valid()
      ensures w == State().pc
    {
      pc
    }

    method WritePC(value: Word)
      requires Valid()
      modifies this
      ensures Valid()
      ensures State() == old(State()).(pc := value)
    {
      pc := value;
    }

    /** Reads PC, and increments it (PC++). */
    method ReadIncPC() returns (value: Word)
      requires Valid()
      modifies this
      ensures Valid()
      ensures (value, State()) == old(State()).ReadIncPC()
    {
      value := pc;
      pc := Wrap(pc + 1);
    }

    function SP(): (w: Word)
      reads this, registers
      requires Valid()
      ensures w == State().sp
    {
      sp
    }

    method WriteSP(value: Word)
      requires Valid()
      modifies this
      ensures Valid()
      ensures State() == old(State()).(sp := value)
    {
      sp := value;
    }

    /** Reads SP, and increments it (SP++). */
    method ReadIncSP() returns (value: Word)
      requires Valid()
      modifies this
      ensures Valid()
      ensures (value, State()) == old(State()).ReadIncSP()
    {
      value := sp;
      sp := Wrap(sp + 1);
    }

    /** Decrements SP and reads it (--SP). */
    method DecReadSP() returns (value: Word)
      requires Valid()
      modifies this
      ensures Valid()
      ensures (value, State()) == old(State()).DecReadSP()
    {
      sp := Wrap(sp - 1);
      value := sp;
    }

    function EX(): (w: Word)
      reads this, registers
      requires Valid()
      ensures w == State().ex
    {
      ex
    }

    method WriteEX(value: Word)
      requires Valid()
      modifies this
      ensures Valid()
      ensures State() == old(State()).(ex := value)
    {
      ex := value;
    }
  }
}
