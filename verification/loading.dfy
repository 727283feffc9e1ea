/** Fetching and skipping whole instructions (core/instruction.go): one instruction
    word, then as many extra words as its operands need. */
module Loading {
  import opened Words
  import opened Errors
  import opened Context
  import opened Values
  import opened InstructionSet

  /** `InstructionLoad`: fetch the instruction word, decode it, then load its operands'
      extra words. A fetch or decode error stops at once. */
  function LoadInstruction<S>(ld: WordLoader<S>, s: S): (r: (Result<Instruction>, S))
  {
    var (rw, s1) := ld.wordLoad(s);
    match rw
    case Err(e) => (Err(e), s1)
    case Ok(w) =>
      match Decode(w)
      case Err(e) => (Err(e), s1)
      case Ok(inst) => LoadOperands(ld, inst, s1)
  }

  /** `InstructionSkip`: fetch the instruction word, count its extra words, and skip
      them without decoding operands. */
  function SkipInstruction<S>(ld: WordLoader<S>, s: S): (r: (Outcome, S))
  {
    var (rw, s1) := ld.wordLoad(s);
    match rw
    case Err(e) => (Fail(e), s1)
    case Ok(w) =>
      match InstructionSet.NumExtraWords(w)
      case Err(e) => (Fail(e), s1)
      case Ok(n) => ld.skipWords(s1, n)
  }

  /** The machine `m` with PC moved forward by `n`, modulo 2^16. */
  function Advance(m: Machine, n: nat): Machine
  {
    m.(cpu := m.cpu.(pc := Wrap(m.cpu.pc + n)))
  }

  /** Loading operands from memory never fails. It keeps the operand modes, stores the
      words that follow PC in order (A's first, then B's), and moves PC past them. */
  lemma {:induction false} LoadOperandsFromMemory(inst: Instruction, m: Machine)
    ensures var (r, m') := LoadOperands(MemLoader, inst, m);
            && r.Ok?
            && Blanked(r.value) == Blanked(inst)
            && m' == Advance(m, ExtraWords(inst))
            && (Values.NumExtraWords(r.value.a) == 1 ==> ExtraWord(r.value.a) == m.mem[m.cpu.pc])
            && (r.value.BinaryInst? && Values.NumExtraWords(r.value.b) == 1 ==>
                  ExtraWord(r.value.b) == m.mem[Wrap(m.cpu.pc + Values.NumExtraWords(inst.a))])
  {
    var m1 := LoadValue(MemLoader, inst.a, m).1;
    assert m1 == Advance(m, Values.NumExtraWords(inst.a));
    if inst.BinaryInst? {
      var m2 := LoadValue(MemLoader, inst.b, m1).1;
      assert m2 == Advance(m1, Values.NumExtraWords(inst.b));
      WrapAdd(m.cpu.pc + Values.NumExtraWords(inst.a), Values.NumExtraWords(inst.b));
    }
  }

  /** Loading an instruction from memory fails exactly when the word at PC does not
      decode, and then only that word is consumed; otherwise the result is that
      word's instruction with its extra words taken from memory, and PC has moved
      past the instruction word and all its extra words. */
  lemma LoadFromMemory(m: Machine)
    ensures var w := m.mem[m.cpu.pc];
            var (r, m') := LoadInstruction(MemLoader, m);
            && (r.Err? <==> Decode(w).Err?)
            && (r.Err? ==> r.error == Decode(w).error && m' == Advance(m, 1))
            && (r.Ok? ==> Blanked(r.value) == Decode(w).value
                          && m' == Advance(m, 1 + ExtraWords(Decode(w).value))
                          && (Values.NumExtraWords(r.value.a) == 1 ==>
                                ExtraWord(r.value.a) == m.mem[Wrap(m.cpu.pc + 1)]))
  {
    var w := m.mem[m.cpu.pc];
    if Decode(w).Ok? {
      LoadDecodable(m);
    } else {
      assert LoadInstruction(MemLoader, m) == (Err(Decode(w).error), Advance(m, 1));
    }
  }

  /** The decodable half of `LoadFromMemory`. */
  lemma LoadDecodable(m: Machine)
    requires Decode(m.mem[m.cpu.pc]).Ok?
    ensures var inst := Decode(m.mem[m.cpu.pc]).value;
            var r := LoadInstruction(MemLoader, m).0;
            && r.Ok? && Blanked(r.value) == inst
            && LoadInstruction(MemLoader, m).1 == Advance(m, 1 + ExtraWords(inst))
            && (Values.NumExtraWords(r.value.a) == 1 ==>
                  ExtraWord(r.value.a) == m.mem[Wrap(m.cpu.pc + 1)])
  {
    var w := m.mem[m.cpu.pc];
    var inst := Decode(w).value;
    var m1 := Advance(m, 1);
    assert LoadInstruction(MemLoader, m) == LoadOperands(MemLoader, inst, m1) by {
      assert MemLoader.wordLoad(m) == (Ok(w), m1);
    }
    var (r, m') := LoadOperands(MemLoader, inst, m1);
    LoadOperandsFromMemory(inst, m1);
    assert Blanked(r.value) == inst by {
      BlankedIsIdentityOnBlank(inst);
    }
    assert m' == Advance(m, 1 + ExtraWords(inst)) by {
      WrapAdd(m.cpu.pc + 1, ExtraWords(inst));
    }
  }

  /** An instruction that is already blank is its own blanked form. */
  lemma BlankedIsIdentityOnBlank(inst: Instruction)
    requires Blank(inst)
    ensures Blanked(inst) == inst
  {
  }

  /** Skipping agrees with loading on memory: same outcome, same error, same final
      machine. A conditional instruction therefore passes over exactly the words that
      executing the next instruction would have fetched. */
  lemma SkipMatchesLoad(m: Machine)
    ensures var (r, m') := LoadInstruction(MemLoader, m);
            var (o, m'') := SkipInstruction(MemLoader, m);
            && m'' == m'
            && (o.Pass? <==> r.Ok?)
            && (o.Fail? ==> o.error == r.error)
  {
    LoadFromMemory(m);
    var w := m.mem[m.cpu.pc];
    if Decode(w).Ok? {
      var n := ExtraWords(Decode(w).value);
      WrapAdd(m.cpu.pc + 1, n);
    }
  }

  /** A finite word stream, standing in for the test suite's word loader: words come
      off the front, and running out is `EndOfInput`. */
  function StreamWordLoad(s: seq<Word>): (r: (Result<Word>, seq<Word>))
  {
    if |s| == 0 then (Err(EndOfInput), s) else (Ok(s[0]), s[1..])
  }

  function StreamSkipWords(s: seq<Word>, count: Word): (r: (Outcome, seq<Word>))
  {
    if count <= |s| then (Pass, s[count..]) else (Fail(EndOfInput), [])
  }

  const StreamLoader: WordLoader<seq<Word>> := WordLoader(StreamWordLoad, StreamSkipWords)

  /** The words an instruction occupies: its instruction word, then A's extra word,
      then B's. */
  function Assemble(inst: Instruction): (ws: seq<Word>)
    requires Encodable(inst)
    ensures |ws| == 1 + ExtraWords(inst)
    ensures ws[0] == Encode(inst)
  {
    [Encode(inst)] + OperandWords(inst.a) + (if inst.BinaryInst? then OperandWords(inst.b) else [])
  }

  function OperandWords(v: Value): (ws: seq<Word>)
    ensures |ws| == Values.NumExtraWords(v)
  {
    if Values.NumExtraWords(v) == 1 then [ExtraWord(v)] else []
  }

  /** Loading a value's extra word from a stream that starts with it gives the value
      back and leaves the rest of the stream. */
  lemma LoadValueFromStream(v: Value, rest: seq<Word>)
    ensures LoadValue(StreamLoader, WithExtraWord(v, 0), OperandWords(v) + rest) == (Ok(v), rest)
  {
    if Values.NumExtraWords(v) == 1 {
      var s := OperandWords(v) + rest;
      assert s[0] == ExtraWord(v) && s[1..] == rest;
      assert StreamLoader.wordLoad(s) == (Ok(ExtraWord(v)), rest);
      assert WithExtraWord(WithExtraWord(v, 0), ExtraWord(v)) == v;
      assert LoadValue(StreamLoader, WithExtraWord(v, 0), s) == (Ok(WithExtraWord(WithExtraWord(v, 0), ExtraWord(v))), rest);
    } else {
      assert OperandWords(v) + rest == rest;
      assert WithExtraWord(v, 0) == v;
    }
  }

  /** Assembler round trip: loading an assembled instruction from a stream gives it
      back, consuming exactly its words. */
  lemma LoadAssembled(inst: Instruction, rest: seq<Word>)
    requires Encodable(inst)
    ensures LoadInstruction(StreamLoader, Assemble(inst) + rest) == (Ok(inst), rest)
  {
    var ws := Assemble(inst) + rest;
    DecodeEncode(inst);
    var tail := ws[1..];
    match inst
    case JsrInst(a) =>
      assert tail == OperandWords(a) + rest;
      LoadValueFromStream(a, rest);
    case BinaryInst(op, a, b) =>
      assert tail == OperandWords(a) + (OperandWords(b) + rest);
      LoadValueFromStream(a, OperandWords(b) + rest);
      LoadValueFromStream(b, rest);
  }

  /** A failing fetch of the instruction word ends loading and skipping at once:
      the loader's own error comes back, and nothing more is read. */
  lemma FetchErrorPassesThrough<S>(ld: WordLoader<S>, s: S)
    requires ld.wordLoad(s).0.Err?
    ensures LoadInstruction(ld, s) == (Err(ld.wordLoad(s).0.error), ld.wordLoad(s).1)
    ensures SkipInstruction(ld, s) == (Fail(ld.wordLoad(s).0.error), ld.wordLoad(s).1)
  {
  }

  /** An error fetching A's extra word is returned as it is, and B's extra word is
      never fetched; an error fetching B's comes after A's word was taken. */
  lemma OperandErrorPassesThrough<S>(ld: WordLoader<S>, inst: Instruction, s: S)
    ensures Values.NumExtraWords(inst.a) == 1 && ld.wordLoad(s).0.Err? ==>
              LoadOperands(ld, inst, s) == (Err(ld.wordLoad(s).0.error), ld.wordLoad(s).1)
    ensures inst.BinaryInst? && Values.NumExtraWords(inst.a) == 0 && Values.NumExtraWords(inst.b) == 1
              && ld.wordLoad(s).0.Err? ==>
              LoadOperands(ld, inst, s) == (Err(ld.wordLoad(s).0.error), ld.wordLoad(s).1)
    ensures inst.BinaryInst? && Values.NumExtraWords(inst.a) == 1 && Values.NumExtraWords(inst.b) == 1
              && ld.wordLoad(s).0.Ok? && ld.wordLoad(ld.wordLoad(s).1).0.Err? ==>
              LoadOperands(ld, inst, s)
                == (Err(ld.wordLoad(ld.wordLoad(s).1).0.error), ld.wordLoad(ld.wordLoad(s).1).1)
  {
  }

  /** Once the instruction word has been fetched and counted, skipping returns
      whatever the loader's `SkipWords` returns, its error included. */
  lemma SkipErrorPassesThrough<S>(ld: WordLoader<S>, s: S)
    requires ld.wordLoad(s).0.Ok?
    ensures var (rw, s1) := ld.wordLoad(s);
            InstructionSet.NumExtraWords(rw.value).Ok? ==>
              SkipInstruction(ld, s) == ld.skipWords(s1, InstructionSet.NumExtraWords(rw.value).value)
  {
  }

  /** Operands whose extra words are not all in the stream fail with `EndOfInput`,
      having used the stream up. */
  lemma ShortOperandStream(inst: Instruction, s: seq<Word>)
    requires |s| < ExtraWords(inst)
    ensures LoadOperands(StreamLoader, inst, s) == (Err(EndOfInput), [])
  {
    if Values.NumExtraWords(inst.a) == 1 && |s| == 1 {
      assert StreamLoader.wordLoad(s).1 == [];
    }
  }

  /** A stream cut off inside an assembled instruction fails to load and to skip with
      `EndOfInput`, whether the cut falls before the instruction word or before one
      of its extra words, and the stream is used up either way. */
  lemma {:induction false} TruncatedInstruction(inst: Instruction, k: nat)
    requires Encodable(inst) && k < |Assemble(inst)|
    ensures LoadInstruction(StreamLoader, Assemble(inst)[..k]) == (Err(EndOfInput), [])
    ensures SkipInstruction(StreamLoader, Assemble(inst)[..k]) == (Fail(EndOfInput), [])
  {
    var s := Assemble(inst)[..k];
    if k > 0 {
      DecodeEncode(inst);
      var blank := Blanked(inst);
      assert ExtraWords(blank) == ExtraWords(inst);
      assert StreamLoader.wordLoad(s) == (Ok(Encode(inst)), s[1..]);
      assert LoadInstruction(StreamLoader, s) == LoadOperands(StreamLoader, blank, s[1..]);
      ShortOperandStream(blank, s[1..]);
    }
  }

  /** Operand texts used by the example program: each next word printed with four
      hex digits. */
  lemma CallTargetText()
    ensures Values.String(WordValue(0x0018)) == "0x0018"
  {
    var v := WordValue(0x0018);
    assert Values.String(v) == "0x0018" by { Hex.HexFour(0x0018, 0x0, 0x0, 0x1, 0x8); }
  }

  lemma StoredWordText()
    ensures Values.String(WordValue(0x0020)) == "0x0020"
  {
    var v := WordValue(0x0020);
    assert Values.String(v) == "0x0020" by { Hex.HexFour(0x0020, 0x0, 0x0, 0x2, 0x0); }
  }

  lemma StoreAddressText()
    ensures Values.String(AddressValue(0x1000)) == "[0x1000]"
  {
    var v := AddressValue(0x1000);
    assert Values.String(v) == "[0x1000]" by { Hex.HexFour(0x1000, 0x1, 0x0, 0x0, 0x0); }
  }

  lemma StartWordText()
    ensures Values.String(WordValue(0x0030)) == "0x0030"
  {
    var v := WordValue(0x0030);
    assert Values.String(v) == "0x0030" by { Hex.HexFour(0x0030, 0x0, 0x0, 0x3, 0x0); }
  }

  lemma HangAddressText()
    ensures Values.String(WordValue(0x001a)) == "0x001a"
  {
    var v := WordValue(0x001a);
    assert Values.String(v) == "0x001a" by { Hex.HexFour(0x001a, 0x0, 0x0, 0x1, 0xa); }
  }

  lemma BaseWordText()
    ensures Values.String(WordValue(0x2000)) == "0x2000"
  {
    var v := WordValue(0x2000);
    assert Values.String(v) == "0x2000" by { Hex.HexFour(0x2000, 0x2, 0x0, 0x0, 0x0); }
  }

  lemma LoopAddressText()
    ensures Values.String(WordValue(0x000d)) == "0x000d"
  {
    var v := WordValue(0x000d);
    assert Values.String(v) == "0x000d" by { Hex.HexFour(0x000d, 0x0, 0x0, 0x0, 0xd); }
  }

  /** Instruction words and disassembly from the example program, in this revision's
      encoding: a register set from the next word. */
  lemma ExampleSetRegister()
    ensures LoadInstruction(StreamLoader, [0x7c01, 0x0030]) == (Ok(BinaryInst(SET, WordValue(0x0030), RegisterValue(0))), [])
    ensures InstructionSet.String(BinaryInst(SET, WordValue(0x0030), RegisterValue(0))) == "SET A, 0x0030"
  {
    assert "SET" + " " + "A" + ", " + "0x0030" == "SET A, 0x0030";
    var inst := BinaryInst(SET, WordValue(0x0030), RegisterValue(0));
    assert LoadInstruction(StreamLoader, [0x7c01, 0x0030]) == (Ok(inst), []) by {
      assert Assemble(inst) + [] == [0x7c01, 0x0030];
      LoadAssembled(inst, []);
    }
    StartWordText();
  }

  /** Both operands taking extra words: the next-word literal stored at a next-word
      address. */
  lemma ExampleSetMemory()
    ensures LoadInstruction(StreamLoader, [0x7fc1, 0x0020, 0x1000]) == (Ok(BinaryInst(SET, WordValue(0x0020), AddressValue(0x1000))), [])
    ensures InstructionSet.String(BinaryInst(SET, WordValue(0x0020), AddressValue(0x1000))) == "SET [0x1000], 0x0020"
  {
    assert "SET" + " " + "[0x1000]" + ", " + "0x0020" == "SET [0x1000], 0x0020";
    var inst := BinaryInst(SET, WordValue(0x0020), AddressValue(0x1000));
    assert LoadInstruction(StreamLoader, [0x7fc1, 0x0020, 0x1000]) == (Ok(inst), []) by {
      assert Assemble(inst) + [] == [0x7fc1, 0x0020, 0x1000];
      LoadAssembled(inst, []);
    }
    StoreAddressText();
    StoredWordText();
  }

  /** The example program's subtraction from memory. */
  lemma ExampleSub()
    ensures LoadInstruction(StreamLoader, [0x7803, 0x1000]) == (Ok(BinaryInst(SUB, AddressValue(0x1000), RegisterValue(0))), [])
    ensures InstructionSet.String(BinaryInst(SUB, AddressValue(0x1000), RegisterValue(0))) == "SUB A, [0x1000]"
  {
    assert "SUB" + " " + "A" + ", " + "[0x1000]" == "SUB A, [0x1000]";
    var inst := BinaryInst(SUB, AddressValue(0x1000), RegisterValue(0));
    assert LoadInstruction(StreamLoader, [0x7803, 0x1000]) == (Ok(inst), []) by {
      assert Assemble(inst) + [] == [0x7803, 0x1000];
      LoadAssembled(inst, []);
    }
    StoreAddressText();
  }

  /** The example program's jump to the hang loop at 0x001a (it appears three times). */
  lemma ExampleJumpToHang()
    ensures LoadInstruction(StreamLoader, [0x7f81, 0x001a]) == (Ok(BinaryInst(SET, WordValue(0x001a), PcValue)), [])
    ensures InstructionSet.String(BinaryInst(SET, WordValue(0x001a), PcValue)) == "SET PC, 0x001a"
  {
    assert "SET" + " " + "PC" + ", " + "0x001a" == "SET PC, 0x001a";
    var inst := BinaryInst(SET, WordValue(0x001a), PcValue);
    assert LoadInstruction(StreamLoader, [0x7f81, 0x001a]) == (Ok(inst), []) by {
      assert Assemble(inst) + [] == [0x7f81, 0x001a];
      LoadAssembled(inst, []);
    }
    HangAddressText();
  }

  /** The loop's base address loaded into A. */
  lemma ExampleSetBase()
    ensures LoadInstruction(StreamLoader, [0x7c01, 0x2000]) == (Ok(BinaryInst(SET, WordValue(0x2000), RegisterValue(0))), [])
    ensures InstructionSet.String(BinaryInst(SET, WordValue(0x2000), RegisterValue(0))) == "SET A, 0x2000"
  {
    assert "SET" + " " + "A" + ", " + "0x2000" == "SET A, 0x2000";
    var inst := BinaryInst(SET, WordValue(0x2000), RegisterValue(0));
    assert LoadInstruction(StreamLoader, [0x7c01, 0x2000]) == (Ok(inst), []) by {
      assert Assemble(inst) + [] == [0x7c01, 0x2000];
      LoadAssembled(inst, []);
    }
    BaseWordText();
  }

  /** The loop's jump back to its head at 0x000d. */
  lemma ExampleLoopBack()
    ensures LoadInstruction(StreamLoader, [0x7f81, 0x000d]) == (Ok(BinaryInst(SET, WordValue(0x000d), PcValue)), [])
    ensures InstructionSet.String(BinaryInst(SET, WordValue(0x000d), PcValue)) == "SET PC, 0x000d"
  {
    assert "SET" + " " + "PC" + ", " + "0x000d" == "SET PC, 0x000d";
    var inst := BinaryInst(SET, WordValue(0x000d), PcValue);
    assert LoadInstruction(StreamLoader, [0x7f81, 0x000d]) == (Ok(inst), []) by {
      assert Assemble(inst) + [] == [0x7f81, 0x000d];
      LoadAssembled(inst, []);
    }
    LoopAddressText();
  }

  /** The example program's subroutine call. */
  lemma ExampleJsr()
    ensures LoadInstruction(StreamLoader, [0x7c20, 0x0018]) == (Ok(JsrInst(WordValue(0x0018))), [])
    ensures InstructionSet.String(JsrInst(WordValue(0x0018))) == "JSR 0x0018"
  {
    assert "JSR " + "0x0018" == "JSR 0x0018";
    var inst := JsrInst(WordValue(0x0018));
    assert LoadInstruction(StreamLoader, [0x7c20, 0x0018]) == (Ok(inst), []) by {
      assert Assemble(inst) + [] == [0x7c20, 0x0018];
      LoadAssembled(inst, []);
    }
    CallTargetText();
  }

  /** The example program's return: a one-word instruction. */
  lemma ExampleReturn()
    ensures LoadInstruction(StreamLoader, [0x6381]) == (Ok(BinaryInst(SET, PopValue, PcValue)), [])
    ensures InstructionSet.String(BinaryInst(SET, PopValue, PcValue)) == "SET PC, POP"
  {
    assert "SET" + " " + "PC" + ", " + "POP" == "SET PC, POP";
    var inst := BinaryInst(SET, PopValue, PcValue);
    assert LoadInstruction(StreamLoader, [0x6381]) == (Ok(inst), []) by {
      assert Assemble(inst) + [] == [0x6381];
      LoadAssembled(inst, []);
    }
  }

  /** `InstructionLoad` against the machine state. */
  method InstructionLoad(state: D16MachineState) returns (r: Result<Instruction>)
    requires state.Valid()
    modifies state.cpu
    ensures state.Valid()
    ensures (r, state.State()) == LoadInstruction(MemLoader, old(state.State()))
  {
    var rw := state.WordLoad();
    match rw
    case Err(e) =>
      r := Err(e);
    case Ok(w) =>
      var decoded := Decode(w);
      match decoded
      case Err(e) =>
        r := Err(e);
      case Ok(inst) =>
        r := LoadNextWords(inst, state);
  }

  /** `InstructionSkip` against the machine state. */
  method InstructionSkip(state: D16MachineState) returns (r: Outcome)
    requires state.Valid()
    modifies state.cpu
    ensures state.Valid()
    ensures (r, state.State()) == SkipInstruction(MemLoader, old(state.State()))
  {
    var rw := state.WordLoad();
    match rw
    case Err(e) =>
      r := Fail(e);
    case Ok(w) =>
      var count := InstructionSet.NumExtraWords(w);
      match count
      case Err(e) =>
        r := Fail(e);
      case Ok(n) =>
        r := state.SkipWords(n);
  }
}
