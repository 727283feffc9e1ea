# DCPU-16 core of dcpu16go, modelled in Dafny

This project models the emulator core of huin/dcpu16go: a DCPU-16 machine made
of 16-bit words. It has eight general registers (A, B, C, X, Y, Z, I, J), a
program counter PC, a stack pointer SP, an extra/excess register EX and a
64K-word memory. The core does four things:

- It decodes an instruction word in the 6/5/5 layout (A operand code, B operand
  code, opcode).
- It resolves operand codes to addressing modes: register, `[register]`,
  `[next word + register]`, POP, PEEK, PUSH, SP, PC, EX (printed `O`),
  `[next word]`, next-word literal, embedded literal.
- It loads the extra words an instruction needs, or skips them.
- It executes the instruction: JSR; SET, ADD, SUB, MUL, DIV, MOD, SHL, SHR, AND,
  BOR, XOR; and the skip instructions IFE, IFN, IFG, IFB. It also prints
  instructions as assembly text.

The model has two layers.

- **Pure specification.** Datatypes for the machine (`Context.Machine`), the
  operand (`Values.Value`) and the instruction (`InstructionSet.Instruction`).
  Functions for decoding, reading and writing operands (`EvalRead`,
  `EvalWrite`), loading (`Loading.LoadInstruction`), skipping
  (`Loading.SkipInstruction`), executing (`Execution.Exec`) and stepping
  (`Emulator.ExecStep`). Lemmas relate these to one another and to the
  repository's test vectors.
- **Imperative classes.** `Cpu.D16CPU`, `Memory.D16MemoryState` and
  `Context.D16MachineState` hold the state the Go code updates in place (a
  register array, a 64K-word memory array, PC, SP and EX). The methods that
  drive them (`Values.Read`/`Write`, `InstructionSet.LoadNextWords`,
  `Loading.InstructionLoad`/`InstructionSkip`, `Execution.Execute`,
  `Emulator.Step`) are each proved to have exactly the effect of the matching
  specification function on the abstract state.

Word sources are generic. `Context.WordLoader` stands for Go's `WordLoader`
interface. Loading and skipping are stated against any loader. Two loaders
are modelled: memory at PC, which is how the emulator fetches, and a finite
word stream that reports end of input. Machine integers are unbounded
integers restricted by subset types. Go's `uint16`/`uint32` truncation is
written out as `Wrap` (modulo 2^16) and `Wrap32` (modulo 2^32). The bitwise
operators are defined bit by bit.

## Model

| member | source | states |
|---|---|---|
| Words.Signed | core/model.go:10-12 | a non-negative int16 keeps its value; a negative one becomes its two's-complement word (s + 2^16) |
| Words.AsDSigned | core/model.go:14-16 | words below 0x8000 keep their value, the rest are reinterpreted as negative (w - 2^16); the result lies in the int16 range |
| Words.SignedRoundTrip | core/model.go:10-16 | `Signed` and `AsDSigned` are inverse in both directions |
| Words.SplitDWord | core/model.go:18-20 | the high and low halves recombine to the 32-bit value |
| Words.JoinDWord | core/model.go:18-20 | joining two halves and splitting again gives the same halves |
| Words.SplitDSWord | core/model.go:22-24 | the halves of a signed 32-bit value are those of its two's-complement bits and rejoin to them |
| Words.SignExtension | core/model.go:14-24 | a widened word's high half is 0 or 0xffff according to its sign bit, and its low half is the word |
| Bits.AndBitsBit | core/dcpu16_instruction.go:430-434 | bit i of the bit-by-bit AND is the conjunction of the operands' bits i |
| Bits.OrBitsBit | core/dcpu16_instruction.go:449-453 | bit i of the bit-by-bit OR is the disjunction of the operands' bits i |
| Bits.XorBitsBit | core/dcpu16_instruction.go:468-472 | bit i of the bit-by-bit XOR is set exactly when the operands' bits i differ |
| Bits.SameBits | core/dcpu16_instruction.go:430-472 | two numbers below 2^n with the same n low bits are equal |
| Bits.AndZeroIffDisjoint | core/dcpu16_instruction.go:550-556 | `b & a` is zero exactly when the words share no set bit (the test IFB makes) |
| Bits.XorInvolution | core/dcpu16_instruction.go:468-472 | XOR with the same word twice restores the word |
| Bits.Absorption | core/dcpu16_instruction.go:430-453 | `b & (b \| a) == b` and `b \| (b & a) == b` |
| Bits.And | core/dcpu16_instruction.go:430-434 | bit i of `b & a` is set exactly when bit i is set in both words; `AndZeroIffDisjoint` and `Absorption` build on it |
| Bits.Or | core/dcpu16_instruction.go:449-453 | bit i of `b \| a` is set exactly when bit i is set in either word; `Absorption` builds on it |
| Bits.Xor | core/dcpu16_instruction.go:468-472 | bit i of `b ^ a` is set exactly when the words' bits i differ; `XorInvolution` builds on it |
| Hex.Hex | core/dcpu16_value.go:130-132 | `%0Nx` text: the digits of n padded with zeros to at least N characters, all of them hexadecimal digits |
| Hex.HexRoundTrip | core/dcpu16_value.go:249-251 | parsing the rendered text gives the number back, whatever the padding |
| Hex.HexWidth | core/dcpu16_value.go:266-268 | a value below 16^N renders as exactly N characters (4 for words, 2 for embedded literals) |
| Hex.HexInjective | core/dcpu16_value.go:284-286 | two numbers rendered at the same width give the same text exactly when they are equal |
| Hex.HexFour | core/dcpu16_value.go:266-267 | `%04x` of the word with nibbles d3 d2 d1 d0 is exactly those four digits, leading zeros included |
| Hex.HexTwo | core/dcpu16_value.go:284-285 | `%02x` of a value below 0x100 is its two digits, a leading zero included |
| Errors.Message | core/instruction.go:7-17 | the unary, binary and value-code errors print a fixed prefix followed by the offending field as `%02x` |
| Errors.MessageNamesField | core/instruction.go:9-17 | the opcode can be parsed back from an opcode error's message |
| Registers.Name | core/register.go:16-36 | each register's name is the one-letter entry of "ABCXYZIJ" at its id |
| Registers.NameInjective | core/register.go:16-36 | two registers have the same name exactly when they are the same register |
| Cpu.CpuState.WithRegister | core/cpu.go:24-26 | the named register takes the value; the other registers, PC, SP and EX are unchanged |
| Cpu.CpuState.ReadIncPC | core/cpu.go:36-41 | returns the old PC, and PC is incremented with 0xffff wrapping to 0 |
| Cpu.CpuState.ReadIncSP | core/cpu.go:51-56 | returns the old SP, and SP is incremented with 0xffff wrapping to 0 |
| Cpu.CpuState.DecReadSP | core/cpu.go:58-62 | SP is decremented with 0 wrapping to 0xffff, and the new SP is returned |
| Cpu.InitialCpu | core/cpu.go:10-18 | every register, PC and EX are zero and SP is 0xffff |
| Cpu.DecThenIncRestoresSP | core/cpu.go:51-62 | `--SP` followed by `SP++` restores the CPU, and both name the same stack slot |
| Cpu.IncThenDecRestoresSP | core/cpu.go:51-62 | `SP++` followed by `--SP` restores the CPU, and both name the same stack slot |
| Cpu.D16CPU.constructor | core/cpu.go:3-8 | a fresh register array; every field zero, as Go's zero value |
| Cpu.D16CPU.Init | core/cpu.go:10-18 | after the loop clears the registers, the state is `InitialCpu()` |
| Cpu.D16CPU.Register | core/cpu.go:20-22 | the register's value in the abstract state |
| Cpu.D16CPU.WriteRegister | core/cpu.go:24-26 | the new state is the old one with that register replaced |
| Cpu.D16CPU.WritePC | core/cpu.go:32-34 | only PC changes |
| Cpu.D16CPU.PC | core/cpu.go:28-30 | PC in the abstract state |
| Cpu.D16CPU.ReadIncPC | core/cpu.go:36-41 | result and new state as `CpuState.ReadIncPC` |
| Cpu.D16CPU.WriteSP | core/cpu.go:47-49 | only SP changes |
| Cpu.D16CPU.SP | core/cpu.go:43-45 | SP in the abstract state |
| Cpu.D16CPU.ReadIncSP | core/cpu.go:51-56 | result and new state as `CpuState.ReadIncSP` |
| Cpu.D16CPU.DecReadSP | core/cpu.go:58-62 | result and new state as `CpuState.DecReadSP` |
| Cpu.D16CPU.EX | core/cpu.go:64-66 | EX in the abstract state |
| Cpu.D16CPU.WriteEX | core/cpu.go:68-70 | only EX changes |
| Memory.EveryAddressInRange | core/memory.go:3-7 | every 16-bit address indexes the 64K-word memory |
| Memory.ReadAfterWrite | core/memory.go:9-15 | a written address reads back the new word, and every other address reads back its old word |
| Memory.D16MemoryState.constructor | core/memory.go:3-7 | a fresh 64K-word memory, all zero |
| Memory.D16MemoryState.ReadMemory | core/memory.go:9-11 | the word at the address in the abstract contents |
| Memory.D16MemoryState.WriteMemory | core/memory.go:13-15 | the contents are the old contents with one address replaced |
| Context.MemLoaderOnlyMovesPC | core/context.go:56-63 | fetching from memory returns the word at PC and advances PC by one modulo 2^16; skipping advances PC by the count; neither fails or changes anything else |
| Context.MemWordLoad | core/context.go:56-58 | fetching the word at PC and moving PC on by one; `MemLoaderOnlyMovesPC` states that it never fails and changes nothing else |
| Context.MemSkipWords | core/context.go:60-63 | moving PC on by the count; `MemLoaderOnlyMovesPC` states that it never fails and changes nothing else |
| Context.InitMachine | core/context.go:52-54 | the CPU is reset to `InitialCpu()` and memory keeps its contents |
| Context.D16MachineState.constructor | core/context.go:46-50 | a fresh CPU and memory, everything zero |
| Context.D16MachineState.Init | core/context.go:52-54 | the new state is `InitMachine` of the old one |
| Context.D16MachineState.WordLoad | core/context.go:56-58 | result and new state as the memory loader's fetch |
| Context.D16MachineState.SkipWords | core/context.go:60-63 | result and new state as the memory loader's skip |
| Context.CPUEquals | core/context.go:25-32 | true exactly when the two CPUs have equal registers, PC, SP and EX |
| Values.Code | core/dcpu16_value.go:19-54 | every operand's code lies in 0..0x3f |
| Values.NumExtraWords | core/dcpu16_value.go:56-78 | a mode takes at most one extra word |
| Values.WithExtraWord | core/dcpu16_value.go:70-74 | storing a loaded word keeps the mode and its code, and sets the extra word of the modes that have one |
| Values.ValueOf | core/dcpu16_value.go:19-54 | codes above 0x3f fail with `ValueCodeError(code)`; every other code decodes to a well-formed operand whose code is the input, with no extra word loaded yet |
| Values.SlotIndependent | core/dcpu16_value.go:19-54 | the A and B slots decode every code to the same operand |
| Values.ValueOfCode | core/dcpu16_value.go:19-54 | decoding inverts encoding: every well-formed, not-yet-loaded operand comes back from its own code |
| Values.ExtraWordCodes | core/dcpu16_value.go:19-54 | exactly codes 0x10-0x17, 0x1e and 0x1f take an extra word |
| Values.SmallCodeIsNotLiteral | core/dcpu16_value.go:19-54 | every code that fits the 5-bit B field decodes, and never to an embedded literal |
| Values.LoadValue | core/dcpu16_value.go:56-78 | a mode without an extra word reads nothing; one with an extra word reads exactly one word and stores it, or passes the loader's error on |
| Values.EvalRead | core/dcpu16_value.go:86-286 | the word each mode reads and the SP adjustment it makes; `ReadWriteShareLocation`, `ReadSideEffects`, `WriteThenRead` and `PushThenPop` state its meaning, and `Read` is proved to implement it |
| Values.EvalWrite | core/dcpu16_value.go:86-286 | the cell each mode writes, literals ignoring the write; `ReadWriteShareLocation`, `LiteralWriteIsNoOp` and `WriteThenRead` state its meaning, and `Write` is proved to implement it |
| Values.String | core/dcpu16_value.go:94-286 | each mode's assembly text; `StringShape`, `TextKindOfString` and `StringInjective` state its meaning, and the value-test lemmas below pin it down on the codes of the value tests |
| Values.ReadWriteShareLocation | core/dcpu16_value.go:86-286 | reading and writing any mode act on the same cell after the same SP adjustment |
| Values.ReadSideEffects | core/dcpu16_value.go:139-183 | only POP (SP+1) and PUSH (SP-1) change the machine when read |
| Values.LiteralWriteIsNoOp | core/dcpu16_value.go:258-286 | writing a literal changes nothing, and reading it yields the literal |
| Values.WriteThenRead | core/dcpu16_value.go:86-251 | for every mode that names a register, SP, PC, EX or a fixed memory cell, reading after a write yields the written word |
| Values.PushThenPop | core/dcpu16_value.go:139-183 | a PUSH write followed by a POP read yields the pushed word and restores SP; the only lasting change is the word at SP-1 |
| Values.WriteExamples | core/dcpu16_value_test.go:60-113 | the write cases of the value tests: [A] and [A+5] with A=0x1234, POP at 0xfffe, PUSH at 0xffff, PEEK |
| Values.RegisterStrings | core/dcpu16_value_test.go:16-19 | codes 0x00, 0x07, 0x08 and 0x0f decode and print as `A`, `J`, `[A]` and `[J]` |
| Values.RelativeAddressStringA | core/dcpu16_value_test.go:20 | code 0x10 with next word 0x4321 prints as `[0x4321+A]` |
| Values.RelativeAddressStringJ | core/dcpu16_value_test.go:21 | code 0x17 with next word 0x1234 prints as `[0x1234+J]` |
| Values.ModeStrings | core/dcpu16_value_test.go:22-27 | codes 0x18-0x1d decode and print as `POP`, `PEEK`, `PUSH`, `SP`, `PC` and `O` |
| Values.AddressString | core/dcpu16_value_test.go:28 | code 0x1e with next word 0xdead prints as `[0xdead]` |
| Values.NextWordString | core/dcpu16_value_test.go:29 | code 0x1f with next word 0xbeef prints as `0xbeef` |
| Values.LowLiteralString | core/dcpu16_value_test.go:30 | code 0x20 is the embedded literal 0, printed `0x00` |
| Values.HighLiteralString | core/dcpu16_value_test.go:31 | code 0x3f is the embedded literal 0x1f, printed `0x1f` |
| Values.StringInjective | core/dcpu16_value.go:94-286 | two well-formed operands print alike only when they are equal |
| Values.StringShape | core/dcpu16_value.go:94-286 | the length and distinguishing characters of each mode's text |
| Values.TextKindOfString | core/dcpu16_value.go:94-286 | an operand's mode can be read off its text |
| Values.Read | core/dcpu16_value.go:90-280 | word read and new machine state as `EvalRead` |
| Values.Write | core/dcpu16_value.go:86-276 | new machine state as `EvalWrite` |
| Values.LoadExtraWords | core/dcpu16_value.go:58-74 | result and new state as `LoadValue` with the memory loader |
| InstructionSet.SplitOpWord | core/dcpu16_instruction.go:7-12 | the fields are 6, 5 and 5 bits wide and repack to the word |
| InstructionSet.SplitJoin | core/dcpu16_instruction.go:7-12 | splitting a packed word gives its fields back |
| InstructionSet.OpCode | core/dcpu16_instruction.go:62-98 | every instruction's opcode lies in 1..0x1f |
| InstructionSet.OpCodeTable | core/dcpu16_instruction.go:62-98 | the table and `OpCode` are inverse, and the table is filled exactly at the implemented opcodes |
| InstructionSet.BinaryOpOf | core/dcpu16_instruction.go:62-98 | the opcode table; `OpCodeTable` states that it is filled exactly at the implemented opcodes and inverts `OpCode` |
| InstructionSet.Mnemonic | core/dcpu16_instruction.go:62-98 | every mnemonic has three letters |
| InstructionSet.MnemonicInjective | core/dcpu16_instruction.go:62-98 | two instructions share a mnemonic exactly when they are the same |
| InstructionSet.UnaryInstruction | core/dcpu16_instruction.go:100-108 | the unary decoder: only middle field 0x01 (JSR) is accepted; `Decode`, `EncodeDecode` and `DecodeEncode` state its behaviour |
| InstructionSet.BinaryInstruction | core/dcpu16_instruction.go:110-130 | the binary decoder: an empty table slot is an opcode error; `Decode`, `EncodeDecode` and `DecodeEncode` state its behaviour |
| InstructionSet.Decode | core/dcpu16_instruction.go:100-180 | decoding succeeds exactly when the opcode is JSR (unary) or a filled binary slot, and fails with the matching opcode error otherwise |
| InstructionSet.EncodeDecode | core/dcpu16_instruction.go:156-180 | every decoded instruction re-encodes to the word it came from |
| InstructionSet.DecodeEncode | core/dcpu16_instruction.go:156-180 | decoding an encoded instruction gives it back, less its extra words |
| InstructionSet.Blanked | core/dcpu16_instruction.go:156-180 | clearing the extra words gives the form `Decode` returns |
| InstructionSet.ExtraWords | core/dcpu16_instruction.go:132-154 | an instruction takes at most two extra words |
| InstructionSet.NumExtraWords | core/dcpu16_instruction.go:132-154 | the extra-word count of the decoded instruction, or the decode error; never more than two |
| InstructionSet.LoadOperands | core/dcpu16_instruction.go:237-243 | loading A's extra word, then B's, from any loader; `LoadOperandsFromMemory`, `LoadAssembled`, `OperandErrorPassesThrough` and `ShortOperandStream` state its behaviour, and `LoadNextWords` is proved to implement it |
| InstructionSet.LoadNextWords | core/dcpu16_instruction.go:195-243 | result and new state as loading A's and then B's extra word from memory |
| InstructionSet.StringInjective | core/dcpu16_instruction.go:203-251 | two instructions with well-formed operands print alike only when they are equal |
| InstructionSet.JsrIsNotBinary | core/dcpu16_instruction.go:203-251 | a JSR never prints like a binary instruction |
| InstructionSet.BinaryStringInjective | core/dcpu16_instruction.go:249-251 | equal binary-instruction text has equal mnemonic, B and A |
| InstructionSet.NoComma | core/dcpu16_value.go:94-286 | no operand text holds a comma, so the comma in "B, A" separates the operands |
| InstructionSet.String | core/dcpu16_instruction.go:249-251 | `JSR a` or `MNE b, a`; `StringInjective` states that it is unambiguous, and the example-program lemmas pin it down on concrete words |
| Loading.LoadOperandsFromMemory | core/dcpu16_instruction.go:237-243 | loading operands from memory never fails, keeps the modes, stores the words after PC in order (A's first) and moves PC past them |
| Loading.LoadFromMemory | core/instruction.go:60-74 | loading from memory fails exactly when the word at PC does not decode, consuming that word alone; otherwise it yields that word's instruction, with extra words taken from memory and PC past all of them |
| Loading.LoadDecodable | core/instruction.go:60-74 | a decodable word at PC loads its instruction and moves PC past the instruction word and its extra words |
| Loading.SkipMatchesLoad | core/instruction.go:48-74 | skipping from memory ends in the same machine as loading, with the same success and the same error |
| Loading.LoadAssembled | core/dcpu16_instruction_test.go:36-58 | loading an assembled instruction from a word stream returns it and leaves exactly the rest of the stream |
| Loading.FetchErrorPassesThrough | core/instruction.go:48-64 | when fetching the instruction word fails, loading and skipping both return the loader's own error and the loader's state after that fetch, reading nothing more |
| Loading.OperandErrorPassesThrough | core/dcpu16_instruction.go:237-243 | an error fetching A's extra word is returned as it is and B's word is never fetched; with no word for A, or after A's word, B's fetch error is returned as it is |
| Loading.SkipErrorPassesThrough | core/instruction.go:53-57 | after a fetched and counted instruction word, skipping returns exactly what the loader's `SkipWords` returns, error included |
| Loading.ShortOperandStream | core/dcpu16_instruction.go:237-243 | operands whose extra words are not all in the stream fail with end of input and use the stream up |
| Loading.TruncatedInstruction | core/instruction.go:48-74 | a stream cut anywhere inside an assembled instruction fails both to load and to skip with end of input |
| Loading.LoadInstruction | core/instruction.go:60-74 | fetch, decode, then load the extra words; `LoadFromMemory`, `LoadDecodable`, `LoadAssembled`, `FetchErrorPassesThrough` and `TruncatedInstruction` state its behaviour, and `InstructionLoad` is proved to implement it |
| Loading.SkipInstruction | core/instruction.go:48-58 | fetch, decode, then skip the extra words; `SkipMatchesLoad` relates it to loading, `FetchErrorPassesThrough`, `SkipErrorPassesThrough` and `TruncatedInstruction` state its error path, and `InstructionSkip` is proved to implement it |
| Loading.ExampleSetRegister | core/notch_test.go:14 | `0x7c01 0x0030` loads as `SET A, 0x0030` and prints so |
| Loading.ExampleSetMemory | core/notch_test.go:15 | `0x7fc1 0x0020 0x1000` loads as `SET [0x1000], 0x0020` and prints so |
| Loading.ExampleSub | core/notch_test.go:16 | `0x7803 0x1000` loads as `SUB A, [0x1000]` and prints so |
| Loading.ExampleJumpToHang | core/notch_test.go:18 | `0x7f81 0x001a` loads as `SET PC, 0x001a` and prints so (the same words recur on lines 29 and 33) |
| Loading.ExampleSetBase | core/notch_test.go:21 | `0x7c01 0x2000` loads as `SET A, 0x2000` and prints so |
| Loading.ExampleLoopBack | core/notch_test.go:25 | `0x7f81 0x000d` loads as `SET PC, 0x000d` and prints so |
| Loading.ExampleJsr | core/notch_test.go:28 | `0x7c20 0x0018` loads as `JSR 0x0018` and prints so |
| Loading.ExampleReturn | core/notch_test.go:31 | `0x6381` loads as `SET PC, POP` and prints so |
| Loading.InstructionLoad | core/instruction.go:60-74 | result and new state as `LoadInstruction` with the memory loader |
| Loading.InstructionSkip | core/instruction.go:48-58 | result and new state as `SkipInstruction` with the memory loader |
| Execution.Alu | core/dcpu16_instruction.go:276-472 | MOD, AND, BOR and XOR leave EX alone and every other arithmetic instruction sets it; B and EX are those of `AddWords`, `SubWords`, `MulWords`, `DivWords`, `ModWord`, `ShlWords`, `ShrWords` and the bitwise operators |
| Execution.Performs | core/dcpu16_instruction.go:487-556 | the conditions of IFE, IFN, IFG and IFB; `ConditionalEffect` states what happens when each holds or fails, and `AndZeroIffDisjoint` gives IFB's test bit by bit |
| Execution.Exec | core/dcpu16_instruction.go:212-556 | executing one loaded instruction; `ExecFailsOnlyInSkip`, `ConditionalEffect`, `ArithmeticOnRegister`, `ArithmeticReadsAFirst`, `SetCopies`, `JsrEffect` and the test-vector lemmas state its behaviour, and `Execute` is proved to implement it |
| Arithmetic.AddWords | core/dcpu16_instruction.go:276-282 | EX:B is the exact sum, so EX is 1 exactly on overflow |
| Arithmetic.SubWords | core/dcpu16_instruction.go:297-303 | B is the difference modulo 2^16, and EX is 0xffff exactly on underflow and 0 otherwise |
| Arithmetic.SubUndoesAdd | core/dcpu16_instruction.go:276-303 | SUB of the same A undoes ADD on B |
| Arithmetic.MulWords | core/dcpu16_instruction.go:318-324 | EX:B is the exact product |
| Arithmetic.DivWords | core/dcpu16_instruction.go:339-350 | a zero divisor gives B = EX = 0; otherwise B is the quotient and EX the remainder's fraction scaled by 2^16 |
| Arithmetic.ModWord | core/dcpu16_instruction.go:365-373 | a zero divisor gives 0; otherwise the remainder, below A, which with DIV's quotient rebuilds B |
| Arithmetic.ShlWords | core/dcpu16_instruction.go:388-394 | for shifts up to 16, EX:B is b * 2^a; from 32 on both are zero |
| Arithmetic.ShrWords | core/dcpu16_instruction.go:409-415 | below 32, B is b / 2^a and EX the bits shifted out as a fraction scaled by 2^16; from 32 on both are zero |
| Arithmetic.ShrIsDivByPowerOfTwo | core/dcpu16_instruction.go:409-415 | a right shift below 16 agrees with DIV by 2^a, EX included |
| Execution.ExecFailsOnlyInSkip | core/dcpu16_instruction.go:487-556 | executing fails only in a skip instruction whose skipped word does not decode, and only with an opcode error |
| Execution.ConditionalEffect | core/dcpu16_instruction.go:487-556 | a skip instruction changes no register, memory word or EX; when its condition holds PC stays, otherwise the next instruction is passed over exactly as loading it would |
| Execution.ArithmeticOnRegister | core/dcpu16_instruction.go:276-472 | on a register B with a side-effect-free A, B gets the computed word, EX is set by the instructions that set it, and nothing else changes |
| Execution.ArithmeticReadsAFirst | core/dcpu16_instruction.go:276-472 | an arithmetic instruction reads A before B: with POP as A and PEEK as B, A takes the word at SP, B reads and receives the result at SP+1, SP ends at SP+1, and EX is set as `Alu` says |
| Execution.SetCopies | core/dcpu16_instruction.go:258-261 | after SET, reading a B that names a register, a memory cell, SP, PC or EX gives the word read from A; a literal B leaves only A's side effect |
| Execution.PopOperandMovesTwice | core/dcpu16_instruction.go:276-282 | with POP as B, an arithmetic instruction moves SP up twice and writes the word above the popped one |
| Execution.PushOperandMovesTwice | core/dcpu16_instruction.go:276-282 | with PUSH as B, SP moves down twice: the instruction reads one slot below SP and writes the next |
| Execution.JsrEffect | core/dcpu16_instruction.go:212-216 | JSR moves SP down one, stores the return address there and jumps to A |
| Execution.AddSubVectors | core/dcpu16_instruction_test.go:79-99 | the ADD and SUB cases of the instruction tests, overflow and underflow included |
| Execution.MulDivModVectors | core/dcpu16_instruction_test.go:101-189 | the MUL, DIV and MOD cases, zero divisor included |
| Execution.ShiftVectors | core/dcpu16_instruction_test.go:235-266 | the SHR and SHL cases, with the shifted-out bits in EX |
| Execution.Execute | core/dcpu16_instruction.go:212-556 | outcome and new machine state as `Exec` |
| Emulator.StepErrors | core/emulator.go:3-9 | a step fails only with an opcode error; when the word at PC does not decode, the step fails with its error and only PC moves, past that word |
| Emulator.ExecStep | core/emulator.go:3-9 | load at PC, then execute; `StepErrors`, `CallStep`, `ReturnStep` and `ReturnFromCall` state its behaviour, and `Step` is proved to implement it |
| Emulator.SetExample | core/emulator_test.go:89-99 | from reset, `SET A, 0x0030` at address 0 sets A to 0x0030, PC to 2, SP to 0xffff and leaves memory alone |
| Emulator.CallStep | core/emulator.go:3-9 | a `JSR next-word` at PC pushes PC+2 at SP-1 and jumps to the target |
| Emulator.ReturnStep | core/emulator.go:3-9 | `SET PC, POP` loads PC from the stack top and moves SP up one |
| Emulator.ReturnFromCall | core/emulator.go:3-9 | a call to a `SET PC, POP` returns to the instruction after the call, SP restored, with the return address left in the stack slot |
| Emulator.Step | core/emulator.go:3-9 | outcome and new machine state as `ExecStep` |

## Left out

- `core/basic_instruction.go`, `cmd/dis`, `model/` and `src/model/` are not part of this model. They hold an older instruction encoding, a disassembler front end and a copy of the core.
- Instruction pooling, `Clone` and `InstructionByName` are left out. They copy instructions or look them up by name, and do not affect decoding or execution.
- Seven words of the example program are left out: core/notch_test.go lines 17, 20, 22-24, 27 and 30. Their embedded literals are encoded as the value plus 0x21 and written in decimal. This code decodes literal code c as c - 0x20 and prints it as `0x%02x`. Line 22 also writes its operand as `[I+0x2000]`, while this code prints `[0x2000+I]`. The other ten lines are stated by the `Loading.Example…` lemmas.
- The bitwise test vectors for AND, BOR and XOR are left out. Those operators are characterised bit by bit instead.
- The emulator fixtures after the first (core/emulator_test.go:100-233) are not stated. Their words use the older 4/6/6 instruction layout, not the 6/5/5 layout this code decodes. For example, 0x7de1 at line 102 decodes here as `SET [J], <next word>`, so that test's expected PC 3 and word 0xbeef at address 3 do not follow from this code.
- The test suite's `FakeWordLoader` is replaced by a finite word stream (`Loading.LoadAssembled`) that reports end of input once it runs dry. The fake's own bookkeeping is not copied.
- Opcodes of later DCPU-16 revisions that this code does not implement (MLI, DVI, MDI, ASR, IFC, IFA, IFL, IFU, ADX, SBX, STI, STD) are left out. The table leaves their slots empty, so they decode to `InvalidBinaryOpCodeError`, as in the source.
- Registers.Name: register ids are restricted to 0..7 by type, so the panic that `RegisterId.String` raises for other ids is not modelled.
- IFB follows the code (core/dcpu16_instruction.go:550-556): it skips the next instruction when `(b & a) != 0`. The comment above it says the opposite, that the next instruction is performed only in that case.
- Arithmetic.ShlWords: for shifts from 17 to 31 the result is given only by its definition (the 32-bit shift truncated, then split). The contract states the exact product only up to 16 and the zero result from 32 on.
- Values.ValueOf: the Go `Value` method takes no slot flag. The model's `isB` parameter is accepted and ignored (`Values.SlotIndependent`).
- The `O` operand (code 0x1d) is modelled as EX. core/dcpu16_value.go:224-230 reads it with `state.O()` and writes it with `state.WriteO`. The `CPU` and `MachineState` interfaces (core/context.go:8-23, 39-44) declare neither method, only `EX` and `WriteEX`, so that code does not compile as written. The model maps the mode to EX and keeps its printed name `O`.
- Concurrency and timing (cycle counts) are not modelled. The source has neither.
