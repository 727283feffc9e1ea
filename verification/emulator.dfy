/** One emulation step (core/emulator.go): load the instruction at PC, then
    execute it. */
module Emulator {
  import opened Words
  import opened Errors
  import opened Registers
  import opened Cpu
  import opened Context
  import opened Values
  import opened InstructionSet
  import opened Loading
  import opened Execution

  /** `Step`: a load error ends the step; otherwise the loaded instruction runs. */
  function ExecStep(m: Machine): (r: (Outcome, Machine))
  {
    var (loaded, m1) := LoadInstruction(MemLoader, m);
    match loaded
    case Err(e) => (Fail(e), m1)
    case Ok(inst) => Exec(inst, m1)
  }

  /** A step fails only on an instruction word that does not decode: either the one
      at PC, in which case nothing but PC (moved past that word) changes, or the one a
      conditional instruction skips. The error is always an opcode error. */
  lemma StepErrors(m: Machine)
    ensures var (o, m') := ExecStep(m);
            o.Fail? ==> o.error.InvalidUnaryOpCodeError? || o.error.InvalidBinaryOpCodeError?
    ensures Decode(m.mem[m.cpu.pc]).Err? ==>
            ExecStep(m) == (Fail(Decode(m.mem[m.cpu.pc]).error), Advance(m, 1))
  {
    LoadFromMemory(m);
    var (loaded, m1) := LoadInstruction(MemLoader, m);
    if loaded.Ok? {
      ExecFailsOnlyInSkip(loaded.value, m1);
    }
  }

  /** The first emulator test: from the reset state, `SET A, 0x0030` stored as
      [0x7c01, 0x0030] sets A to 0x0030 and PC to 2, and leaves SP at 0xffff, EX at 0
      and memory as it was. */
  lemma SetExample(m: Machine)
    requires m.mem[0] == 0x7c01 && m.mem[1] == 0x0030
    ensures ExecStep(InitMachine(m))
              == (Pass, Machine(CpuState([0x0030, 0, 0, 0, 0, 0, 0, 0], 2, 0xffff, 0), m.mem))
  {
    var m0 := InitMachine(m);
    LoadFromMemory(m0);
    var inst := BinaryInst(SET, WordValue(0x0030), RegisterValue(RegA));
    assert Decode(0x7c01) == Ok(BinaryInst(SET, WordValue(0), RegisterValue(RegA)));
    assert LoadInstruction(MemLoader, m0) == (Ok(inst), Advance(m0, 2));
    var m1 := Advance(m0, 2);
    assert m1.cpu == CpuState([0, 0, 0, 0, 0, 0, 0, 0], 2, 0xffff, 0);
    assert Exec(inst, m1).1 == m1.(cpu := m1.cpu.WithRegister(RegA, 0x0030));
    assert m1.cpu.registers[RegA := 0x0030] == [0x0030, 0, 0, 0, 0, 0, 0, 0];
  }

  /** Returning from a call: after `CallStep` has jumped to a target holding
      `SET PC, POP`, the next step comes back to the word after the call with SP
      restored. The registers and EX are untouched; the only memory word changed
      is the stack slot, which holds the return address. The target must not be
      that stack slot. */
  lemma ReturnFromCall(m: Machine, target: Word)
    requires m.mem[target] == 0x6381
    requires target != Wrap(m.cpu.sp - 1)
    ensures var slot, ret := Wrap(m.cpu.sp - 1), Wrap(m.cpu.pc + 2);
            var called := Machine(m.cpu.(sp := slot, pc := target), m.mem[slot := ret]);
            ExecStep(called) == (Pass, Machine(m.cpu.(pc := ret), m.mem[slot := ret]))
  {
    var slot, ret := Wrap(m.cpu.sp - 1), Wrap(m.cpu.pc + 2);
    var called := Machine(m.cpu.(sp := slot, pc := target), m.mem[slot := ret]);
    assert Wrap(slot as int + 1) == m.cpu.sp by {
      WrapAdd(m.cpu.sp as int - 1, 1);
    }
    assert called.mem[called.cpu.pc] == 0x6381;
    ReturnStep(called);
  }

  /** Calling: a `JSR next-word` at PC moves SP down one, stores the return address
      (the word after the call) there, and jumps to the target. */
  lemma CallStep(m: Machine, target: Word)
    requires m.mem[m.cpu.pc] == 0x7c20 && m.mem[Wrap(m.cpu.pc + 1)] == target
    ensures var slot := Wrap(m.cpu.sp - 1);
            ExecStep(m) == (Pass, Machine(m.cpu.(sp := slot, pc := target),
                                          m.mem[slot := Wrap(m.cpu.pc + 2)]))
  {
    var call := JsrInst(WordValue(target));
    LoadFromMemory(m);
    assert Decode(0x7c20) == Ok(JsrInst(WordValue(0)));
    assert LoadInstruction(MemLoader, m) == (Ok(call), Advance(m, 2));
    JsrEffect(WordValue(target), Advance(m, 2));
  }

  /** The return: `SET PC, POP` pops the return address into PC. */
  lemma ReturnStep(m: Machine)
    requires m.mem[m.cpu.pc] == 0x6381
    ensures ExecStep(m) == (Pass, m.(cpu := m.cpu.(pc := m.mem[m.cpu.sp], sp := Wrap(m.cpu.sp + 1))))
  {
    LoadFromMemory(m);
    assert Decode(0x6381) == Ok(BinaryInst(SET, PopValue, PcValue));
    assert LoadInstruction(MemLoader, m) == (Ok(BinaryInst(SET, PopValue, PcValue)), Advance(m, 1));
  }

  /** `Step` against the machine state. */
  method Step(state: D16MachineState) returns (r: Outcome)
    requires state.Valid()
    modifies state.Repr()
    ensures state.Valid()
    ensures (r, state.State()) == ExecStep(old(state.State()))
  {
    var loaded := InstructionLoad(state);
    match loaded
    case Err(e) =>
      r := Fail(e);
    case Ok(inst) =>
      r := Execute(inst, state);
  }
}
