/** Operand addressing modes (core/dcpu16_value.go): decoding a value code, the extra
    word a mode consumes, reading and writing through the machine, and assembly text. */
module Values {
  import opened Words
  import opened Errors
  import opened Registers
  import opened Cpu
  import opened Memory
  import opened Context
  import Hex

  /** A decoded operand. The modes that consume an extra instruction word carry it. */
  datatype Value =
    | RegisterValue(reg: RegisterId)                          // 0x00-0x07: register
    | RegisterAddressValue(reg: RegisterId)                   // 0x08-0x0f: [register]
    | RegisterRelAddressValue(offset: Word, reg: RegisterId)  // 0x10-0x17: [next word + register]
    | PopValue                                                // 0x18: POP / [SP++]
    | PeekValue                                               // 0x19: PEEK / [SP]
    | PushValue                                               // 0x1a: PUSH / [--SP]
    | SpValue                                                 // 0x1b: SP
    | PcValue                                                 // 0x1c: PC
    | OValue                                                  // 0x1d: the EX register, printed O
    | AddressValue(address: Word)                             // 0x1e: [next word]
    | WordValue(word: Word)                                   // 0x1f: next word (literal)
    | LiteralValue(literal: Word)                             // 0x20-0x3f: literal 0x00-0x1f

  /** An embedded literal always lies in 0..0x1f. */
  ghost predicate WellFormed(v: Value)
  {
    v.LiteralValue? ==> v.literal < 0x20
  }

  /** The operand code a value is decoded from (the encoder's side of `ValueOf`). */
  function Code(v: Value): (w: Word)
    requires WellFormed(v)
    ensures w <= 0x3f
  {
    match v
    case RegisterValue(reg) => reg
    case RegisterAddressValue(reg) => 0x08 + reg
    case RegisterRelAddressValue(_, reg) => 0x10 + reg
    case PopValue => 0x18
    case PeekValue => 0x19
    case PushValue => 0x1a
    case SpValue => 0x1b
    case PcValue => 0x1c
    case OValue => 0x1d
    case AddressValue(_) => 0x1e
    case WordValue(_) => 0x1f
    case LiteralValue(literal) => 0x20 + literal
  }

  /** `NumExtraWords`: how many instruction words the mode consumes. */
  function NumExtraWords(v: Value): (n: Word)
    ensures n <= 1
  {
    match v
    case RegisterRelAddressValue(_, _) => 1
    case AddressValue(_) => 1
    case WordValue(_) => 1
    case _ => 0
  }

  /** The extra word a value holds (zero for modes that take none). */
  function ExtraWord(v: Value): Word
  {
    match v
    case RegisterRelAddressValue(offset, _) => offset
    case AddressValue(address) => address
    case WordValue(word) => word
    case _ => 0
  }

  /** `LoadInstValue` storing its word: the value with its extra word replaced. */
  function WithExtraWord(v: Value, w: Word): (v': Value)
    ensures NumExtraWords(v') == NumExtraWords(v)
    ensures NumExtraWords(v) == 1 ==> ExtraWord(v') == w
    ensures WellFormed(v) ==> WellFormed(v') && Code(v') == Code(v)
  {
    match v
    case RegisterRelAddressValue(_, reg) => RegisterRelAddressValue(w, reg)
    case AddressValue(_) => AddressValue(w)
    case WordValue(_) => WordValue(w)
    case _ => v
  }

  /** `D16ValueSet.Value`: decode an operand code. The slot flag (A or B) is accepted
      but does not change the mapping. A mode with an extra word comes back with a
      zero placeholder until `LoadValue` fills it in. */
  function ValueOf(w: Word, isB: bool): (r: Result<Value>)
    ensures r.Err? <==> w > 0x3f
    ensures r.Err? ==> r.error == ValueCodeError(w)
    ensures r.Ok? ==> WellFormed(r.value) && Code(r.value) == w && ExtraWord(r.value) == 0
  {
    if w <= 0x07 then Ok(RegisterValue(w))
    else if w <= 0x0f then Ok(RegisterAddressValue(w - 0x08))
    else if w <= 0x17 then Ok(RegisterRelAddressValue(0, w - 0x10))
    else if w == 0x18 then Ok(PopValue)
    else if w == 0x19 then Ok(PeekValue)
    else if w == 0x1a then Ok(PushValue)
    else if w == 0x1b then Ok(SpValue)
    else if w == 0x1c then Ok(PcValue)
    else if w == 0x1d then Ok(OValue)
    else if w == 0x1e then Ok(AddressValue(0))
    else if w == 0x1f then Ok(WordValue(0))
    else if w <= 0x3f then Ok(LiteralValue(w - 0x20))
    else Err(ValueCodeError(w))
  }

  /** The A and B slots resolve every code to the same operand. */
  lemma SlotIndependent(w: Word)
    ensures ValueOf(w, true) == ValueOf(w, false)
  {
  }

  /** Decoding inverts encoding: every well-formed operand without a loaded extra word
      comes back from its own code. */
  lemma ValueOfCode(v: Value, isB: bool)
    requires WellFormed(v) && ExtraWord(v) == 0
    ensures ValueOf(Code(v), isB) == Ok(v)
  {
  }

  /** Exactly codes 0x10-0x17, 0x1e and 0x1f consume an extra word. */
  lemma ExtraWordCodes(w: Word, isB: bool)
    requires w <= 0x3f
    ensures NumExtraWords(ValueOf(w, isB).value) ==
            if 0x10 <= w <= 0x17 || w == 0x1e || w == 0x1f then 1 else 0
  {
  }

  /** Codes below 0x20 -- all that fit in the B field -- never give an embedded literal. */
  lemma SmallCodeIsNotLiteral(w: Word, isB: bool)
    requires w <= 0x1f
    ensures ValueOf(w, isB).Ok? && !ValueOf(w, isB).value.LiteralValue?
  {
  }

  /** `LoadExtraWords` / `LoadInstValue` against any word source: a mode without an
      extra word reads nothing; one with an extra word reads exactly one word and
      stores it, or passes the source's error on. */
  function LoadValue<S>(ld: WordLoader<S>, v: Value, s: S): (r: (Result<Value>, S))
    ensures NumExtraWords(v) == 0 ==> r == (Ok(v), s)
    ensures NumExtraWords(v) == 1 ==> r.1 == ld.wordLoad(s).1
    ensures NumExtraWords(v) == 1 && ld.wordLoad(s).0.Ok? ==>
            r.0 == Ok(WithExtraWord(v, ld.wordLoad(s).0.value))
    ensures NumExtraWords(v) == 1 && ld.wordLoad(s).0.Err? ==>
            r.0 == Err(ld.wordLoad(s).0.error)
  {
    if NumExtraWords(v) == 0 then (Ok(v), s)
    else
      var (w, s') := ld.wordLoad(s);
      match w
      case Ok(word) => (Ok(WithExtraWord(v, word)), s')
      case Err(e) => (Err(e), s')
  }

  /** `String`: the operand's assembly text. */
  function String(v: Value): string
  {
    match v
    case RegisterValue(reg) => Name(reg)
    case RegisterAddressValue(reg) => "[" + Name(reg) + "]"
    case RegisterRelAddressValue(offset, reg) => "[0x" + Hex.Hex(offset, 4) + "+" + Name(reg) + "]"
    case PopValue => "POP"
    case PeekValue => "PEEK"
    case PushValue => "PUSH"
    case SpValue => "SP"
    case PcValue => "PC"
    case OValue => "O"
    case AddressValue(address) => "[0x" + Hex.Hex(address, 4) + "]"
    case WordValue(word) => "0x" + Hex.Hex(word, 4)
    case LiteralValue(literal) => "0x" + Hex.Hex(literal, 2)
  }

  /** Where an operand lives once any stack adjustment has been made. */
  datatype Location =
    | InRegister(id: RegisterId)
    | InMemory(address: Word)
    | InSP
    | InPC
    | InEX
    | Constant(word: Word)

  /** The cell an operand designates and the machine after its SP side effect:
      POP uses SP and then increments it, PUSH decrements SP and then uses it. */
  function Access(v: Value, m: Machine): (Location, Machine)
  {
    match v
    case RegisterValue(reg) => (InRegister(reg), m)
    case RegisterAddressValue(reg) => (InMemory(m.cpu.registers[reg]), m)
    case RegisterRelAddressValue(offset, reg) => (InMemory(Wrap(m.cpu.registers[reg] + offset)), m)
    case PopValue => (InMemory(m.cpu.sp), m.(cpu := m.cpu.(sp := Wrap(m.cpu.sp + 1))))
    case PeekValue => (InMemory(m.cpu.sp), m)
    case PushValue => (InMemory(Wrap(m.cpu.sp - 1)), m.(cpu := m.cpu.(sp := Wrap(m.cpu.sp - 1))))
    case SpValue => (InSP, m)
    case PcValue => (InPC, m)
    case OValue => (InEX, m)
    case AddressValue(address) => (InMemory(address), m)
    case WordValue(word) => (Constant(word), m)
    case LiteralValue(literal) => (Constant(literal), m)
  }

  function Get(m: Machine, loc: Location): Word
  {
    match loc
    case InRegister(id) => m.cpu.registers[id]
    case InMemory(address) => m.mem[address]
    case InSP => m.cpu.sp
    case InPC => m.cpu.pc
    case InEX => m.cpu.ex
    case Constant(word) => word
  }

  function Put(m: Machine, loc: Location, x: Word): Machine
  {
    match loc
    case InRegister(id) => m.(cpu := m.cpu.WithRegister(id, x))
    case InMemory(address) => m.(mem := m.mem[address := x])
    case InSP => m.(cpu := m.cpu.(sp := x))
    case InPC => m.(cpu := m.cpu.(pc := x))
    case InEX => m.(cpu := m.cpu.(ex := x))
    case Constant(_) => m
  }

  /** `Read` of every value kind: the word it yields and the machine afterwards. */
  function EvalRead(v: Value, m: Machine): (r: (Word, Machine))
  {
    match v
    case RegisterValue(reg) => (m.cpu.registers[reg], m)
    case RegisterAddressValue(reg) => (m.mem[m.cpu.registers[reg]], m)
    case RegisterRelAddressValue(offset, reg) => (m.mem[Wrap(m.cpu.registers[reg] + offset)], m)
    case PopValue =>
      var (address, cpu') := m.cpu.ReadIncSP();
      (m.mem[address], m.(cpu := cpu'))
    case PeekValue => (m.mem[m.cpu.sp], m)
    case PushValue =>
      var (address, cpu') := m.cpu.DecReadSP();
      (m.mem[address], m.(cpu := cpu'))
    case SpValue => (m.cpu.sp, m)
    case PcValue => (m.cpu.pc, m)
    case OValue => (m.cpu.ex, m)
    case AddressValue(address) => (m.mem[address], m)
    case WordValue(word) => (word, m)
    case LiteralValue(literal) => (literal, m)
  }

  /** `Write` of every value kind: the machine after storing `x`. */
  function EvalWrite(v: Value, m: Machine, x: Word): (m': Machine)
  {
    match v
    case RegisterValue(reg) => m.(cpu := m.cpu.WithRegister(reg, x))
    case RegisterAddressValue(reg) => m.(mem := m.mem[m.cpu.registers[reg] := x])
    case RegisterRelAddressValue(offset, reg) => m.(mem := m.mem[Wrap(m.cpu.registers[reg] + offset) := x])
    case PopValue =>
      var (address, cpu') := m.cpu.ReadIncSP();
      Machine(cpu', m.mem[address := x])
    case PeekValue => m.(mem := m.mem[m.cpu.sp := x])
    case PushValue =>
      var (address, cpu') := m.cpu.DecReadSP();
      Machine(cpu', m.mem[address := x])
    case SpValue => m.(cpu := m.cpu.(sp := x))
    case PcValue => m.(cpu := m.cpu.(pc := x))
    case OValue => m.(cpu := m.cpu.(ex := x))
    case AddressValue(address) => m.(mem := m.mem[address := x])
    case WordValue(_) => m
    case LiteralValue(_) => m
  }

  /** Reading and writing act on one and the same cell, after one and the same SP
      adjustment: the named register, the memory word at the computed address
      ([reg+offset] wraps modulo 2^16), SP, PC, EX, or a constant that ignores writes. */
  lemma ReadWriteShareLocation(v: Value, m: Machine, x: Word)
    ensures var (loc, m1) := Access(v, m);
            EvalRead(v, m) == (Get(m1, loc), m1) && EvalWrite(v, m, x) == Put(m1, loc, x)
  {
  }

  /** Only POP and PUSH have a side effect when read; they move SP by one and touch
      nothing else. */
  lemma ReadSideEffects(v: Value, m: Machine)
    ensures !v.PopValue? && !v.PushValue? ==> EvalRead(v, m).1 == m
    ensures v.PopValue? ==> EvalRead(v, m).1 == m.(cpu := m.cpu.(sp := (m.cpu.sp + 1) % WordSpan))
    ensures v.PushValue? ==> EvalRead(v, m).1 == m.(cpu := m.cpu.(sp := (m.cpu.sp - 1) % WordSpan))
  {
  }

  /** Writing a literal (next word or embedded) leaves the whole machine as it was. */
  lemma LiteralWriteIsNoOp(v: Value, m: Machine, x: Word)
    requires v.WordValue? || v.LiteralValue?
    ensures EvalWrite(v, m, x) == m
    ensures EvalRead(v, m) == (if v.WordValue? then v.word else v.literal, m)
  {
  }

  /** A written cell reads back the written word: for every mode that designates a
      register or a fixed memory cell, a read after a write yields the value written. */
  lemma {:induction false} WriteThenRead(v: Value, m: Machine, x: Word)
    requires !v.PopValue? && !v.PushValue? && !v.WordValue? && !v.LiteralValue?
    ensures EvalRead(v, EvalWrite(v, m, x)) == (x, EvalWrite(v, m, x))
  {
    match v
    case RegisterValue(reg) =>
    case RegisterAddressValue(reg) =>
    case RegisterRelAddressValue(offset, reg) =>
    case PeekValue =>
    case SpValue =>
    case PcValue =>
    case OValue =>
    case AddressValue(address) =>
  }

  /** Stack discipline: a PUSH write followed by a POP read yields the pushed word and
      restores SP; the only lasting change is the word stored at SP-1. */
  lemma PushThenPop(m: Machine, x: Word)
    ensures var pushed := EvalWrite(PushValue, m, x);
            var slot := (m.cpu.sp - 1) % WordSpan;
            && pushed.cpu.sp == slot
            && EvalRead(PopValue, pushed) == (x, m.(mem := m.mem[slot := x]))
  {
  }

  /** Writes that the value tests exercise: [A] with A=0x1234 writes 0x1234; [A+5]
      writes 0x1239; POP at SP=0xfffe writes there and leaves SP=0xffff; PUSH at
      SP=0xffff writes 0xfffe and leaves SP=0xfffe; PEEK writes at SP and leaves it. */
  lemma WriteExamples(m: Machine, x: Word)
    ensures m.cpu.registers[RegA] == 0x1234 ==>
            EvalWrite(RegisterAddressValue(RegA), m, x) == m.(mem := m.mem[0x1234 := x])
    ensures m.cpu.registers[RegA] == 0x1234 ==>
            EvalWrite(RegisterRelAddressValue(5, RegA), m, x) == m.(mem := m.mem[0x1239 := x])
    ensures m.cpu.sp == 0xfffe ==>
            EvalWrite(PopValue, m, x) == Machine(m.cpu.(sp := 0xffff), m.mem[0xfffe := x])
    ensures m.cpu.sp == 0xffff ==>
            EvalWrite(PushValue, m, x) == Machine(m.cpu.(sp := 0xfffe), m.mem[0xfffe := x])
    ensures EvalWrite(PeekValue, m, x) == m.(mem := m.mem[m.cpu.sp := x])
  {
  }

  /** The operand texts of the value tests for the register modes: each code decoded,
      then printed. */
  lemma RegisterStrings()
    ensures String(ValueOf(0x00, false).value) == "A"
    ensures String(ValueOf(0x07, false).value) == "J"
    ensures String(ValueOf(0x08, false).value) == "[A]"
    ensures String(ValueOf(0x0f, false).value) == "[J]"
  {
    assert ValueOf(0x00, false).value == RegisterValue(RegA);
    assert ValueOf(0x07, false).value == RegisterValue(RegJ);
    assert ValueOf(0x08, false).value == RegisterAddressValue(RegA);
    assert ValueOf(0x0f, false).value == RegisterAddressValue(RegJ);
  }

  /** The operand texts of the value tests for the stack and special-register modes. */
  lemma ModeStrings()
    ensures String(ValueOf(0x18, false).value) == "POP"
    ensures String(ValueOf(0x19, false).value) == "PEEK"
    ensures String(ValueOf(0x1a, false).value) == "PUSH"
    ensures String(ValueOf(0x1b, false).value) == "SP"
    ensures String(ValueOf(0x1c, false).value) == "PC"
    ensures String(ValueOf(0x1d, false).value) == "O"
  {
  }

  /** The operand texts of the value tests for the embedded literals, printed with two
      hex digits: the smallest and the largest. */
  lemma LowLiteralString()
    ensures String(ValueOf(0x20, false).value) == "0x00"
  {
    var v := LiteralValue(0x00);
    assert String(v) == "0x00" by { Hex.HexTwo(0x00, 0x0, 0x0); }
    assert ValueOf(0x20, false).value == v;
  }

  lemma HighLiteralString()
    ensures String(ValueOf(0x3f, false).value) == "0x1f"
  {
    var v := LiteralValue(0x1f);
    assert String(v) == "0x1f" by { Hex.HexTwo(0x1f, 0x1, 0xf); }
    assert ValueOf(0x3f, false).value == v;
  }

  /** The operand texts of the value tests for `[next word + register]`, lowest and
      highest register: the code decoded, the next word stored as `LoadValue` stores
      it, then printed. */
  lemma RelativeAddressStringA()
    ensures String(WithExtraWord(ValueOf(0x10, false).value, 0x4321)) == "[0x4321+A]"
  {
    var v := RegisterRelAddressValue(0x4321, RegA);
    assert String(v) == "[0x4321+A]" by {
      assert Hex.Hex(0x4321, 4) == "4321" by { Hex.HexFour(0x4321, 0x4, 0x3, 0x2, 0x1); }
      assert Name(RegA) == "A";
    }
    assert WithExtraWord(ValueOf(0x10, false).value, 0x4321) == v;
  }

  lemma RelativeAddressStringJ()
    ensures String(WithExtraWord(ValueOf(0x17, false).value, 0x1234)) == "[0x1234+J]"
  {
    var v := RegisterRelAddressValue(0x1234, RegJ);
    assert String(v) == "[0x1234+J]" by {
      assert Hex.Hex(0x1234, 4) == "1234" by { Hex.HexFour(0x1234, 0x1, 0x2, 0x3, 0x4); }
      assert Name(RegJ) == "J";
    }
    assert WithExtraWord(ValueOf(0x17, false).value, 0x1234) == v;
  }

  /** The operand text of the value test for `[next word]`. */
  lemma AddressString()
    ensures String(WithExtraWord(ValueOf(0x1e, false).value, 0xdead)) == "[0xdead]"
  {
    var v := AddressValue(0xdead);
    assert String(v) == "[0xdead]" by { Hex.HexFour(0xdead, 0xd, 0xe, 0xa, 0xd); }
    assert WithExtraWord(ValueOf(0x1e, false).value, 0xdead) == v;
  }

  /** The operand text of the value test for `next word`. */
  lemma NextWordString()
    ensures String(WithExtraWord(ValueOf(0x1f, false).value, 0xbeef)) == "0xbeef"
  {
    var v := WordValue(0xbeef);
    assert String(v) == "0xbeef" by { Hex.HexFour(0xbeef, 0xb, 0xe, 0xe, 0xf); }
    assert WithExtraWord(ValueOf(0x1f, false).value, 0xbeef) == v;
  }

  /** The assembly text of an operand determines it: two well-formed operands print
      alike only when they are equal. */
  lemma {:induction false} StringInjective(v: Value, u: Value)
    requires WellFormed(v) && WellFormed(u)
    requires String(v) == String(u)
    ensures v == u
  {
    TextKindOfString(v);
    TextKindOfString(u);
    match v
    case RegisterValue(reg) =>
      NameInjective(reg, u.reg);
    case RegisterAddressValue(reg) =>
      assert String(v)[1..2] == Name(reg) && String(u)[1..2] == Name(u.reg);
      NameInjective(reg, u.reg);
    case RegisterRelAddressValue(offset, reg) =>
      Hex.HexWidth(offset, 4);
      Hex.HexWidth(u.offset, 4);
      RelAddressParts(Hex.Hex(offset, 4), Name(reg));
      RelAddressParts(Hex.Hex(u.offset, 4), Name(u.reg));
      Hex.HexInjective(offset, u.offset, 4);
      NameInjective(reg, u.reg);
    case AddressValue(address) =>
      assert String(v)[3..7] == Hex.Hex(address, 4) && String(u)[3..7] == Hex.Hex(u.address, 4);
      Hex.HexInjective(address, u.address, 4);
    case WordValue(word) =>
      assert String(v)[2..] == Hex.Hex(word, 4) && String(u)[2..] == Hex.Hex(u.word, 4);
      Hex.HexInjective(word, u.word, 4);
    case LiteralValue(literal) =>
      assert String(v)[2..] == Hex.Hex(literal, 2) && String(u)[2..] == Hex.Hex(u.literal, 2);
      Hex.HexInjective(literal, u.literal, 2);
    case _ =>
  }

  /** The offset and register name can be read back out of `[0x<offset>+<name>]`. */
  lemma RelAddressParts(offset: string, name: string)
    requires |offset| == 4 && |name| == 1
    ensures var s := "[0x" + offset + "+" + name + "]";
            s[3..7] == offset && s[8..9] == name
  {
  }

  /** The addressing mode of an operand, numbered in code order. */
  function Kind(v: Value): nat
  {
    match v
    case RegisterValue(_) => 0
    case RegisterAddressValue(_) => 1
    case RegisterRelAddressValue(_, _) => 2
    case PopValue => 3
    case PeekValue => 4
    case PushValue => 5
    case SpValue => 6
    case PcValue => 7
    case OValue => 8
    case AddressValue(_) => 9
    case WordValue(_) => 10
    case LiteralValue(_) => 11
  }

  /** The addressing mode read back from an operand's text. */
  function TextKind(s: string): nat
  {
    if s == "O" then 8
    else if |s| == 1 then 0
    else if s == "POP" then 3
    else if |s| == 3 then 1
    else if |s| == 10 then 2
    else if s == "PEEK" then 4
    else if s == "PUSH" then 5
    else if s == "SP" then 6
    else if s == "PC" then 7
    else if |s| == 8 then 9
    else if |s| == 6 then 10
    else 11
  }

  /** The text of an operand tells its addressing mode. */
  lemma TextKindOfString(v: Value)
    requires WellFormed(v)
    ensures TextKind(String(v)) == Kind(v)
  {
    StringShape(v);
    var s := String(v);
    match v
    case RegisterValue(_) => assert s != "O";
    case RegisterAddressValue(_) => assert s != "POP";
    case RegisterRelAddressValue(_, _) =>
    case AddressValue(_) =>
    case WordValue(_) =>
    case LiteralValue(_) => assert s != "PEEK" && s != "PUSH";
    case _ =>
  }

  /** The length and distinguishing characters of each operand's text. */
  lemma StringShape(v: Value)
    requires WellFormed(v)
    ensures var s := String(v);
            match v
            case RegisterValue(reg) => |s| == 1 && 'A' <= s[0] <= 'Z' && s[0] != 'O'
            case RegisterAddressValue(_) => |s| == 3 && s[0] == '[' && s[2] == ']'
            case RegisterRelAddressValue(_, _) => |s| == 10 && s[0] == '[' && s[1] == '0' && s[7] == '+'
            case AddressValue(_) => |s| == 8 && s[0] == '[' && s[1] == '0' && s[7] == ']'
            case WordValue(_) => |s| == 6 && s[0] == '0'
            case LiteralValue(_) => |s| == 4 && s[0] == '0'
            case _ => 'A' <= s[0] <= 'Z' && (|s| == 1 ==> s == "O")
  {
    match v
    case RegisterValue(reg) =>
    case RegisterRelAddressValue(offset, _) => Hex.HexWidth(offset, 4);
    case AddressValue(address) => Hex.HexWidth(address, 4);
    case WordValue(word) => Hex.HexWidth(word, 4);
    case LiteralValue(literal) => Hex.HexWidth(literal, 2);
    case _ =>
  }

  /** `Read` against the machine state. */
  method Read(v: Value, state: D16MachineState) returns (x: Word)
    requires state.Valid()
    modifies state.cpu
    ensures state.Valid()
    ensures (x, state.State()) == EvalRead(v, old(state.State()))
  {
    match v
    case RegisterValue(reg) =>
      x := state.cpu.Register(reg);
    case RegisterAddressValue(reg) =>
      x := state.memory.ReadMemory(state.cpu.Register(reg));
    case RegisterRelAddressValue(offset, reg) =>
      x := state.memory.ReadMemory(Wrap(state.cpu.Register(reg) + offset));
    case PopValue =>
      var address := state.cpu.ReadIncSP();
      x := state.memory.ReadMemory(address);
    case PeekValue =>
      x := state.memory.ReadMemory(state.cpu.SP());
    case PushValue =>
      var address := state.cpu.DecReadSP();
      x := state.memory.ReadMemory(address);
    case SpValue =>
      x := state.cpu.SP();
    case PcValue =>
      x := state.cpu.PC();
    case OValue =>
      x := state.cpu.EX();
    case AddressValue(address) =>
      x := state.memory.ReadMemory(address);
    case WordValue(word) =>
      x := word;
    case LiteralValue(literal) =>
      x := literal;
  }

  /** `Write` against the machine state. */
  method Write(v: Value, state: D16MachineState, x: Word)
    requires state.Valid()
    modifies state.Repr()
    ensures state.Valid()
    ensures state.State() == EvalWrite(v, old(state.State()), x)
  {
    match v
    case RegisterValue(reg) =>
      state.cpu.WriteRegister(reg, x);
    case RegisterAddressValue(reg) =>
      state.memory.WriteMemory(state.cpu.Register(reg), x);
    case RegisterRelAddressValue(offset, reg) =>
      state.memory.WriteMemory(Wrap(state.cpu.Register(reg) + offset), x);
    case PopValue =>
      var address := state.cpu.ReadIncSP();
      state.memory.WriteMemory(address, x);
    case PeekValue =>
      state.memory.WriteMemory(state.cpu.SP(), x);
    case PushValue =>
      var address := state.cpu.DecReadSP();
      state.memory.WriteMemory(address, x);
    case SpValue =>
      state.cpu.WriteSP(x);
    case PcValue =>
      state.cpu.WritePC(x);
    case OValue =>
      state.cpu.WriteEX(x);
    case AddressValue(address) =>
      state.memory.WriteMemory(address, x);
    case WordValue(_) =>
    case LiteralValue(_) =>
  }

  /** `LoadExtraWords` against the machine state: the extra word comes from `Data[PC]`. */
  method LoadExtraWords(v: Value, state: D16MachineState) returns (r: Result<Value>)
    requires state.Valid()
    modifies state.cpu
    ensures state.Valid()
    ensures (r, state.State()) == LoadValue(MemLoader, v, old(state.State()))
  {
    if NumExtraWords(v) == 0 {
      r := Ok(v);
    } else {
      var w := state.WordLoad();
      match w
      case Ok(word) => r := Ok(WithExtraWord(v, word));
      case Err(e) => r := Err(e);
    }
  }
}
