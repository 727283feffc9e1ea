/** Executing a decoded instruction (the `Execute` methods of
    core/dcpu16_instruction.go). */
module Execution {
  import opened Words
  import opened Bits
  import opened Arithmetic
  import opened Errors
  import opened Registers
  import opened Cpu
  import opened Context
  import opened Values
  import opened InstructionSet
  import opened Loading

  /** The binary instructions that compute a new B. */
  predicate IsArithmetic(op: BinaryOp)
  {
    !IsConditional(op) && op != SET
  }

  /** What an arithmetic instruction stores: the new B, and the new EX for the
      instructions that write one. */
  datatype AluResult = AluResult(value: Word, ex: Option<Word>)

  /** The arithmetic of each instruction on B and A. MOD, AND, BOR and XOR leave EX
      alone; the others set it. */
  function Alu(op: BinaryOp, b: Word, a: Word): (r: AluResult)
    requires IsArithmetic(op)
    ensures r.ex.None? <==> op in {MOD, AND, BOR, XOR}
  {
    match op
    case ADD => var (v, e) := AddWords(b, a); AluResult(v, Some(e))
    case SUB => var (v, e) := SubWords(b, a); AluResult(v, Some(e))
    case MUL => var (v, e) := MulWords(b, a); AluResult(v, Some(e))
    case DIV => var (v, e) := DivWords(b, a); AluResult(v, Some(e))
    case MOD => AluResult(ModWord(b, a), None)
    case AND => AluResult(And(b, a), None)
    case BOR => AluResult(Or(b, a), None)
    case XOR => AluResult(Xor(b, a), None)
    case SHR => var (v, e) := ShrWords(b, a); AluResult(v, Some(e))
    case SHL => var (v, e) := ShlWords(b, a); AluResult(v, Some(e))
  }

  /** The condition under which a conditional instruction lets the next instruction
      run: IFE b == a, IFN b != a, IFG b > a, and IFB when `b & a` is zero. */
  predicate Performs(op: BinaryOp, b: Word, a: Word)
    requires IsConditional(op)
  {
    match op
    case IFE => b == a
    case IFN => b != a
    case IFG => b > a
    case IFB => And(b, a) == 0
  }

  function WithEx(m: Machine, ex: Word): Machine
  {
    m.(cpu := m.cpu.(ex := ex))
  }

  /** `Execute`, for every instruction. The PC is already past the instruction.
      JSR pushes PC (`--SP`), then jumps to A's value. SET reads A and writes B.
      Every other instruction reads A, then B; an arithmetic one then writes B and,
      where it has one, EX; a conditional one skips the next instruction when its
      condition fails, and only that skip can fail. */
  function Exec(inst: Instruction, m: Machine): (r: (Outcome, Machine))
  {
    match inst
    case JsrInst(a) =>
      var (sp, cpu1) := m.cpu.DecReadSP();
      var m1 := Machine(cpu1, m.mem[sp := m.cpu.pc]);
      var (target, m2) := EvalRead(a, m1);
      (Pass, m2.(cpu := m2.cpu.(pc := target)))
    case BinaryInst(op, a, b) =>
      var (x, m1) := EvalRead(a, m);
      if op == SET then (Pass, EvalWrite(b, m1, x))
      else
        var (y, m2) := EvalRead(b, m1);
        if IsConditional(op) then
          if Performs(op, y, x) then (Pass, m2) else SkipInstruction(MemLoader, m2)
        else
          var res := Alu(op, y, x);
          var m3 := EvalWrite(b, m2, res.value);
          (Pass, if res.ex.Some? then WithEx(m3, res.ex.value) else m3)
  }

  /** Execution can fail only in a conditional instruction that skips, and only with
      the decode error of the instruction word being skipped. */
  lemma ExecFailsOnlyInSkip(inst: Instruction, m: Machine)
    ensures var (o, _) := Exec(inst, m);
            o.Fail? ==> && inst.BinaryInst? && IsConditional(inst.op)
                        && (o.error.InvalidUnaryOpCodeError? || o.error.InvalidBinaryOpCodeError?)
  {
    match inst
    case JsrInst(_) =>
    case BinaryInst(op, a, b) =>
      if IsConditional(op) {
        var (x, m1) := EvalRead(a, m);
        var (y, m2) := EvalRead(b, m1);
        SkipMatchesLoad(m2);
        LoadFromMemory(m2);
      }
  }

  /** A conditional instruction changes no register, no memory word and not EX. When
      its condition holds the machine is as the operand reads left it; when it fails,
      the machine is exactly as loading the next instruction would leave it, so the
      skipped instruction's extra words are passed over as well. */
  lemma ConditionalEffect(op: BinaryOp, a: Value, b: Value, m: Machine)
    requires IsConditional(op)
    ensures var (x, m1) := EvalRead(a, m);
            var (y, m2) := EvalRead(b, m1);
            var m' := Exec(BinaryInst(op, a, b), m).1;
            && m'.mem == m.mem
            && m'.cpu.registers == m.cpu.registers
            && m'.cpu.ex == m.cpu.ex
            && (Performs(op, y, x) ==> m' == m2 && m'.cpu.pc == m.cpu.pc)
            && (!Performs(op, y, x) ==> m' == LoadInstruction(MemLoader, m2).1)
  {
    var (x, m1) := EvalRead(a, m);
    var (y, m2) := EvalRead(b, m1);
    ReadSideEffects(a, m);
    ReadSideEffects(b, m1);
    SkipMatchesLoad(m2);
    LoadFromMemory(m2);
  }

  /** An arithmetic instruction on a register B, with an A that has no side effect:
      B gets the computed value, EX is set by the instructions that set it, and
      nothing else changes. */
  lemma ArithmeticOnRegister(op: BinaryOp, a: Value, r: RegisterId, m: Machine)
    requires IsArithmetic(op) && !a.PopValue? && !a.PushValue?
    ensures var res := Alu(op, m.cpu.registers[r], EvalRead(a, m).0);
            var ex := if res.ex.Some? then res.ex.value else m.cpu.ex;
            Exec(BinaryInst(op, a, RegisterValue(r)), m)
              == (Pass, m.(cpu := m.cpu.(registers := m.cpu.registers[r := res.value], ex := ex)))
  {
    ReadSideEffects(a, m);
  }

  /** SET copies: after `SET b, a`, reading a B that names a register, a memory cell,
      SP, PC or EX yields the word A read. A next-word or embedded-literal B ignores the
      write, so only A's side effect remains. */
  lemma SetCopies(a: Value, b: Value, m: Machine)
    ensures var (x, m1) := EvalRead(a, m);
            var m' := Exec(BinaryInst(SET, a, b), m).1;
            && (!b.PopValue? && !b.PushValue? && !b.WordValue? && !b.LiteralValue? ==>
                  EvalRead(b, m').0 == x)
            && (b.WordValue? || b.LiteralValue? ==> m' == m1)
  {
    var (x, m1) := EvalRead(a, m);
    if !b.PopValue? && !b.PushValue? && !b.WordValue? && !b.LiteralValue? {
      WriteThenRead(b, m1, x);
    }
    if b.WordValue? || b.LiteralValue? {
      LiteralWriteIsNoOp(b, m1, x);
    }
  }

  /** With POP as B, an arithmetic instruction moves SP twice, once for the read of B
      and once for its write: it reads the word at SP, stores the result one above it,
      and leaves SP two higher. */
  lemma PopOperandMovesTwice(op: BinaryOp, q: RegisterId, m: Machine)
    requires IsArithmetic(op)
    ensures var sp := m.cpu.sp;
            var m' := Exec(BinaryInst(op, RegisterValue(q), PopValue), m).1;
            && m'.cpu.sp == Wrap(sp + 2)
            && m'.mem == m.mem[Wrap(sp + 1) := Alu(op, m.mem[sp], m.cpu.registers[q]).value]
            && m'.cpu.registers == m.cpu.registers
            && m'.cpu.pc == m.cpu.pc
  {
    var sp: int := m.cpu.sp;
    var m2 := m.(cpu := m.cpu.(sp := Wrap(sp + 1)));
    assert EvalRead(PopValue, m) == (m.mem[sp], m2);
    var res := Alu(op, m.mem[sp], m.cpu.registers[q]);
    var m3 := Machine(m2.cpu.(sp := Wrap(Wrap(sp + 1) + 1)), m.mem[Wrap(sp + 1) := res.value]);
    assert EvalWrite(PopValue, m2, res.value) == m3;
    assert Exec(BinaryInst(op, RegisterValue(q), PopValue), m).1
        == if res.ex.Some? then WithEx(m3, res.ex.value) else m3;
    WrapAdd(sp + 1, 1);
  }

  /** An arithmetic instruction reads A before B. With POP as A and PEEK as B, A
      takes the word at SP and moves SP up one, so B then reads the word above it,
      and the result is stored there. */
  lemma ArithmeticReadsAFirst(op: BinaryOp, m: Machine)
    requires IsArithmetic(op)
    ensures var sp := m.cpu.sp;
            var top := Wrap(sp + 1);
            var res := Alu(op, m.mem[top], m.mem[sp]);
            var ex := if res.ex.Some? then res.ex.value else m.cpu.ex;
            Exec(BinaryInst(op, PopValue, PeekValue), m)
              == (Pass, Machine(m.cpu.(sp := top, ex := ex), m.mem[top := res.value]))
  {
  }

  /** With PUSH as B, SP likewise moves twice: the instruction reads the word below
      SP, stores the result below that, and leaves SP two lower. */
  lemma PushOperandMovesTwice(op: BinaryOp, q: RegisterId, m: Machine)
    requires IsArithmetic(op)
    ensures var sp := m.cpu.sp;
            var m' := Exec(BinaryInst(op, RegisterValue(q), PushValue), m).1;
            && m'.cpu.sp == Wrap(sp - 2)
            && m'.mem == m.mem[Wrap(sp - 2) := Alu(op, m.mem[Wrap(sp - 1)], m.cpu.registers[q]).value]
            && m'.cpu.registers == m.cpu.registers
            && m'.cpu.pc == m.cpu.pc
  {
    var sp: int := m.cpu.sp;
    var s1, s2 := Wrap(sp - 1), Wrap(sp - 2);
    WrapAdd(sp - 1, -1);
    var m2 := m.(cpu := m.cpu.(sp := s1));
    assert m.cpu.DecReadSP() == (s1, m2.cpu);
    assert EvalRead(PushValue, m) == (m.mem[s1], m2);
    var res := Alu(op, m.mem[s1], m.cpu.registers[q]);
    var m3 := Machine(m2.cpu.(sp := s2), m.mem[s2 := res.value]);
    assert m2.cpu.DecReadSP() == (s2, m3.cpu);
    assert EvalWrite(PushValue, m2, res.value) == m3;
    assert Exec(BinaryInst(op, RegisterValue(q), PushValue), m).1
        == if res.ex.Some? then WithEx(m3, res.ex.value) else m3;
  }

  /** JSR with an A that has no stack side effect: SP moves down one, the return
      address (the PC after the JSR and its extra word) is stored there, PC becomes
      A's value, and no register, EX or other memory word changes. */
  lemma JsrEffect(a: Value, m: Machine)
    requires !a.PopValue? && !a.PushValue?
    ensures var sp := Wrap(m.cpu.sp - 1);
            var pushed := Machine(m.cpu.(sp := sp), m.mem[sp := m.cpu.pc]);
            Exec(JsrInst(a), m)
              == (Pass, pushed.(cpu := pushed.cpu.(pc := EvalRead(a, pushed).0)))
    ensures a.WordValue? ==> Exec(JsrInst(a), m).1.cpu.pc == a.word
  {
    var sp := Wrap(m.cpu.sp - 1);
    var pushed := Machine(m.cpu.(sp := sp), m.mem[sp := m.cpu.pc]);
    ReadSideEffects(a, pushed);
  }

  /** The arithmetic cases of the instruction tests, with A holding B's initial value
      and a next-word literal as A: ADD and SUB with and without carry or borrow. */
  lemma AddSubVectors()
    ensures Alu(ADD, 0, 5) == AluResult(5, Some(0))
    ensures Alu(ADD, 0xffff, 0x0001) == AluResult(0x0000, Some(0x0001))
    ensures Alu(SUB, 10, 2) == AluResult(8, Some(0))
    ensures Alu(SUB, 0x000d, 0x000f) == AluResult(0xfffe, Some(0xffff))
  {
  }

  /** MUL, DIV and MOD cases, including a zero divisor. */
  lemma MulDivModVectors()
    ensures Alu(MUL, 5, 9) == AluResult(45, Some(0))
    ensures Alu(MUL, 0x1234, 0x0100) == AluResult(0x3400, Some(0x0012))
    ensures Alu(DIV, 12, 3) == AluResult(4, Some(0))
    ensures Alu(DIV, 0x1234, 0x0100) == AluResult(0x0012, Some(0x3400))
    ensures Alu(DIV, 5, 0) == AluResult(0, Some(0))
    ensures Alu(MOD, 12, 3) == AluResult(0, None)
    ensures Alu(MOD, 12, 5) == AluResult(2, None)
    ensures Alu(MOD, 0x1234, 0x0100) == AluResult(0x0034, None)
    ensures Alu(MOD, 5, 0) == AluResult(0, None)
  {
  }

  /** Shift cases: bits shifted out of B land in EX. */
  lemma ShiftVectors()
    ensures Alu(SHR, 0x1230, 4) == AluResult(0x0123, Some(0x0000))
    ensures Alu(SHR, 0x0123, 8) == AluResult(0x0001, Some(0x2300))
    ensures Alu(SHL, 0x0123, 4) == AluResult(0x1230, Some(0x0000))
    ensures Alu(SHL, 0x0123, 12) == AluResult(0x3000, Some(0x0012))
  {
  }

  /** `Execute` against the machine state. */
  method Execute(inst: Instruction, state: D16MachineState) returns (r: Outcome)
    requires state.Valid()
    modifies state.Repr()
    ensures state.Valid()
    ensures (r, state.State()) == Exec(inst, old(state.State()))
  {
    match inst
    case JsrInst(a) =>
      var sp := state.cpu.DecReadSP();
      state.memory.WriteMemory(sp, state.cpu.PC());
      var target := Read(a, state);
      state.cpu.WritePC(target);
      r := Pass;
    case BinaryInst(op, a, b) =>
      var x := Read(a, state);
      if op == SET {
        Write(b, state, x);
        r := Pass;
      } else {
        var y := Read(b, state);
        if IsConditional(op) {
          if Performs(op, y, x) {
            r := Pass;
          } else {
            r := InstructionSkip(state);
          }
        } else {
          var res := Alu(op, y, x);
          Write(b, state, res.value);
          if res.ex.Some? {
            state.cpu.WriteEX(res.ex.value);
          }
          r := Pass;
        }
      }
  }
}
