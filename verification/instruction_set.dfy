/** The instruction table (core/dcpu16_instruction.go): splitting an instruction word,
    resolving the opcode and operands, counting and loading extra words, and
    assembly text. Execution is in module Execution. */
module InstructionSet {
  import opened Words
  import opened Errors
  import opened Context
  import opened Values
  import Hex

  /** `splitOpWord`: the 6/5/5 layout -- A code in the top six bits, B code in the
      middle five, opcode in the bottom five. */
  function SplitOpWord(w: Word): (r: (Word, Word, Word))
    ensures r.0 < 0x40 && r.1 < 0x20 && r.2 < 0x20
    ensures JoinOpWord(r.0, r.1, r.2) == w
  {
    (w / 0x400, (w / 0x20) % 0x20, w % 0x20)
  }

  /** The inverse of `SplitOpWord`: pack the three fields into one word. */
  function JoinOpWord(upper6: Word, middle5: Word, lower5: Word): (w: Word)
    requires upper6 < 0x40 && middle5 < 0x20 && lower5 < 0x20
  {
    upper6 * 0x400 + middle5 * 0x20 + lower5
  }

  lemma SplitJoin(upper6: Word, middle5: Word, lower5: Word)
    requires upper6 < 0x40 && middle5 < 0x20 && lower5 < 0x20
    ensures SplitOpWord(JoinOpWord(upper6, middle5, lower5)) == (upper6, middle5, lower5)
  {
    var w := JoinOpWord(upper6, middle5, lower5);
    assert w / 0x400 == upper6;
    assert w / 0x20 == upper6 * 0x20 + middle5;
  }

  /** The binary instructions this revision implements. */
  datatype BinaryOp = SET | ADD | SUB | MUL | DIV | MOD | AND | BOR | XOR | SHR | SHL | IFB | IFE | IFN | IFG

  /** The conditional-skip instructions. */
  predicate IsConditional(op: BinaryOp)
  {
    op == IFB || op == IFE || op == IFN || op == IFG
  }

  /** `binarySet`, the 32-entry table built by `init`; `None` marks an empty slot. */
  function BinaryOpOf(opCode: Word): Option<BinaryOp>
  {
    match opCode
    case 0x01 => Some(SET)
    case 0x02 => Some(ADD)
    case 0x03 => Some(SUB)
    case 0x04 => Some(MUL)
    case 0x06 => Some(DIV)
    case 0x08 => Some(MOD)
    case 0x0a => Some(AND)
    case 0x0b => Some(BOR)
    case 0x0c => Some(XOR)
    case 0x0d => Some(SHR)
    case 0x0f => Some(SHL)
    case 0x10 => Some(IFB)
    case 0x12 => Some(IFE)
    case 0x13 => Some(IFN)
    case 0x14 => Some(IFG)
    case _ => None
  }

  /** Each instruction's index in `binarySet`. */
  function OpCode(op: BinaryOp): (c: Word)
    ensures 0 < c < 0x20
  {
    match op
    case SET => 0x01
    case ADD => 0x02
    case SUB => 0x03
    case MUL => 0x04
    case DIV => 0x06
    case MOD => 0x08
    case AND => 0x0a
    case BOR => 0x0b
    case XOR => 0x0c
    case SHR => 0x0d
    case SHL => 0x0f
    case IFB => 0x10
    case IFE => 0x12
    case IFN => 0x13
    case IFG => 0x14
  }

  /** The opcodes that select an instruction. */
  const ValidBinaryOpCodes: set<Word> :=
    {0x01, 0x02, 0x03, 0x04, 0x06, 0x08, 0x0a, 0x0b, 0x0c, 0x0d, 0x0f, 0x10, 0x12, 0x13, 0x14}

  /** The table and `OpCode` are inverse, and the table is filled exactly at
      `ValidBinaryOpCodes`. */
  lemma OpCodeTable(c: Word, op: BinaryOp)
    ensures BinaryOpOf(c) == Some(op) <==> OpCode(op) == c
    ensures BinaryOpOf(c).Some? <==> c in ValidBinaryOpCodes
  {
  }

  function Mnemonic(op: BinaryOp): (s: string)
    ensures |s| == 3
  {
    match op
    case SET => "SET"
    case ADD => "ADD"
    case SUB => "SUB"
    case MUL => "MUL"
    case DIV => "DIV"
    case MOD => "MOD"
    case AND => "AND"
    case BOR => "BOR"
    case XOR => "XOR"
    case SHR => "SHR"
    case SHL => "SHL"
    case IFB => "IFB"
    case IFE => "IFE"
    case IFN => "IFN"
    case IFG => "IFG"
  }

  /** A decoded instruction: the unary JSR with its A operand, or a binary
      instruction with its A and B operands. */
  datatype Instruction =
    | JsrInst(a: Value)
    | BinaryInst(op: BinaryOp, a: Value, b: Value)

  /** `unaryInstruction`: only unary opcode 0x01 (JSR) exists; its operand is resolved
      as an A operand. */
  function UnaryInstruction(upper6: Word, middle5: Word): Result<Instruction>
  {
    if middle5 != 0x001 then Err(InvalidUnaryOpCodeError(middle5))
    else
      match ValueOf(upper6, false)
      case Err(e) => Err(e)
      case Ok(a) => Ok(JsrInst(a))
  }

  /** `binaryInstruction`: look the opcode up in the table, then resolve A, then B. */
  function BinaryInstruction(upper6: Word, middle5: Word, lower5: Word): Result<Instruction>
  {
    if lower5 >= 0x20 then Err(InvalidBinaryOpCodeError(lower5))
    else
      match BinaryOpOf(lower5)
      case None => Err(InvalidBinaryOpCodeError(lower5))
      case Some(op) =>
        match ValueOf(upper6, false)
        case Err(e) => Err(e)
        case Ok(a) =>
          match ValueOf(middle5, true)
          case Err(e) => Err(e)
          case Ok(b) => Ok(BinaryInst(op, a, b))
  }

  /** `D16InstructionSet.Instruction`: decode one instruction word. Decoding succeeds
      exactly for a table opcode, or for opcode 0 with unary opcode 1 (JSR); otherwise
      it names the offending field. Operand codes from the word never fail to resolve,
      and the operands come back without extra words. */
  function Decode(w: Word): (r: Result<Instruction>)
    ensures var (upper6, middle5, lower5) := SplitOpWord(w);
            && (r.Ok? <==> lower5 in ValidBinaryOpCodes || (lower5 == 0 && middle5 == 1))
            && (lower5 != 0 && lower5 !in ValidBinaryOpCodes ==> r == Err(InvalidBinaryOpCodeError(lower5)))
            && (lower5 == 0 && middle5 != 1 ==> r == Err(InvalidUnaryOpCodeError(middle5)))
    ensures r.Ok? ==> Blank(r.value)
  {
    var (upper6, middle5, lower5) := SplitOpWord(w);
    if lower5 != 0 then BinaryInstruction(upper6, middle5, lower5)
    else UnaryInstruction(upper6, middle5)
  }

  /** A decoded word is the encoding of its instruction: `Decode` loses nothing. */
  lemma EncodeDecode(w: Word)
    requires Decode(w).Ok?
    ensures Encodable(Decode(w).value) && Encode(Decode(w).value) == w
  {
  }

  /** Operands that can be written back into an instruction word: well-formed, and a
      B operand whose code fits the five-bit field. */
  ghost predicate Encodable(inst: Instruction)
  {
    match inst
    case JsrInst(a) => WellFormed(a)
    case BinaryInst(_, a, b) => WellFormed(a) && WellFormed(b) && Code(b) < 0x20
  }

  /** No extra word loaded yet. */
  ghost predicate Blank(inst: Instruction)
  {
    ExtraWord(inst.a) == 0 && (inst.BinaryInst? ==> ExtraWord(inst.b) == 0)
  }

  /** The instruction word of an instruction (the assembler's side of `Decode`). */
  function Encode(inst: Instruction): Word
    requires Encodable(inst)
  {
    match inst
    case JsrInst(a) => JoinOpWord(Code(a), 0x01, 0x00)
    case BinaryInst(op, a, b) => JoinOpWord(Code(a), Code(b), OpCode(op))
  }

  /** The instruction with its extra words cleared, as `Decode` returns it. */
  function Blanked(inst: Instruction): (r: Instruction)
    ensures Blank(r)
  {
    match inst
    case JsrInst(a) => JsrInst(WithExtraWord(a, 0))
    case BinaryInst(op, a, b) => BinaryInst(op, WithExtraWord(a, 0), WithExtraWord(b, 0))
  }

  /** Decoding an encoded word gives the instruction back, less its extra words. */
  lemma DecodeEncode(inst: Instruction)
    requires Encodable(inst)
    ensures Decode(Encode(inst)) == Ok(Blanked(inst))
  {
    match inst
    case JsrInst(a) =>
      SplitJoin(Code(a), 0x01, 0x00);
      ValueOfCode(WithExtraWord(a, 0), false);
    case BinaryInst(op, a, b) =>
      SplitJoin(Code(a), Code(b), OpCode(op));
      OpCodeTable(OpCode(op), op);
      ValueOfCode(WithExtraWord(a, 0), false);
      ValueOfCode(WithExtraWord(b, 0), true);
  }

  /** The extra words an instruction's operands consume, A's before B's. */
  function ExtraWords(inst: Instruction): (n: nat)
    ensures n <= 2
  {
    match inst
    case JsrInst(a) => Values.NumExtraWords(a)
    case BinaryInst(_, a, b) => Values.NumExtraWords(a) + Values.NumExtraWords(b)
  }

  /** `D16InstructionSet.NumExtraWords`: resolve the word as `Instruction` does and
      add up its operands' extra words (A only, for JSR); decode errors are the same. */
  function NumExtraWords(w: Word): (r: Result<Word>)
    ensures Decode(w).Ok? ==> r == Ok(ExtraWords(Decode(w).value))
    ensures Decode(w).Err? ==> r == Err(Decode(w).error)
    ensures r.Ok? ==> r.value <= 2
  {
    var (upper6, middle5, lower5) := SplitOpWord(w);
    if lower5 != 0 then
      match BinaryInstruction(upper6, middle5, lower5)
      case Err(e) => Err(e)
      case Ok(inst) => Ok(Values.NumExtraWords(inst.a) + Values.NumExtraWords(inst.b))
    else
      match UnaryInstruction(upper6, middle5)
      case Err(e) => Err(e)
      case Ok(inst) => Ok(Values.NumExtraWords(inst.a))
  }

  /** `LoadNextWords`: load A's extra word, then B's; stop at the first error. */
  function LoadOperands<S>(ld: WordLoader<S>, inst: Instruction, s: S): (r: (Result<Instruction>, S))
  {
    match inst
    case JsrInst(a) =>
      var (ra, s1) := LoadValue(ld, a, s);
      (match ra
       case Err(e) => Err(e)
       case Ok(a') => Ok(JsrInst(a')), s1)
    case BinaryInst(op, a, b) =>
      var (ra, s1) := LoadValue(ld, a, s);
      match ra
      case Err(e) => (Err(e), s1)
      case Ok(a') =>
        var (rb, s2) := LoadValue(ld, b, s1);
        (match rb
         case Err(e) => Err(e)
         case Ok(b') => Ok(BinaryInst(op, a', b')), s2)
  }

  /** `LoadNextWords` against the machine state: the extra words come from memory
      at PC, which moves past each one. */
  method LoadNextWords(inst: Instruction, state: D16MachineState) returns (r: Result<Instruction>)
    requires state.Valid()
    modifies state.cpu
    ensures state.Valid()
    ensures (r, state.State()) == LoadOperands(MemLoader, inst, old(state.State()))
  {
    var ra := LoadExtraWords(inst.a, state);
    match ra
    case Err(e) =>
      r := Err(e);
    case Ok(a) =>
      if inst.JsrInst? {
        r := Ok(JsrInst(a));
      } else {
        var rb := LoadExtraWords(inst.b, state);
        match rb
        case Err(e) => r := Err(e);
        case Ok(b) => r := Ok(BinaryInst(inst.op, a, b));
      }
  }

  /** `String`: the mnemonic, then B, then A (`SET b, a`). */
  function String(inst: Instruction): string
  {
    match inst
    case JsrInst(a) => "JSR " + Values.String(a)
    case BinaryInst(op, a, b) => Mnemonic(op) + " " + Values.String(b) + ", " + Values.String(a)
  }

  /** Disassembly is unambiguous: two instructions with well-formed operands print
      alike only when they are equal. */
  lemma StringInjective(i: Instruction, j: Instruction)
    requires WellFormed(i.a) && (i.BinaryInst? ==> WellFormed(i.b))
    requires WellFormed(j.a) && (j.BinaryInst? ==> WellFormed(j.b))
    requires String(i) == String(j)
    ensures i == j
  {
    match i
    case JsrInst(a) => {
      match j
      case JsrInst(a') =>
        SplitAtLength("JSR ", Values.String(a), "JSR ", Values.String(a'));
        Values.StringInjective(a, a');
      case BinaryInst(op', a', b') =>
        JsrIsNotBinary(a, op', a', b');
    }
    case BinaryInst(op, a, b) => {
      match j
      case JsrInst(a') =>
        JsrIsNotBinary(a', op, a, b);
      case BinaryInst(op', a', b') =>
        BinaryStringInjective(op, a, b, op', a', b');
    }
  }

  lemma JsrIsNotBinary(a: Value, op: BinaryOp, a': Value, b': Value)
    ensures String(JsrInst(a)) != String(BinaryInst(op, a', b'))
  {
    var s, t := String(JsrInst(a)), String(BinaryInst(op, a', b'));
    assert s[..3] == "JSR";
    assert t[..3] == Mnemonic(op);
  }

  lemma BinaryStringInjective(op: BinaryOp, a: Value, b: Value, op': BinaryOp, a': Value, b': Value)
    requires WellFormed(a) && WellFormed(b) && WellFormed(a') && WellFormed(b')
    requires String(BinaryInst(op, a, b)) == String(BinaryInst(op', a', b'))
    ensures op == op' && a == a' && b == b'
  {
    NoComma(b);
    NoComma(b');
    SplitBinaryText(Mnemonic(op), Values.String(b), Values.String(a), Mnemonic(op'), Values.String(b'), Values.String(a'));
    MnemonicInjective(op, op');
    Values.StringInjective(b, b');
    Values.StringInjective(a, a');
  }

  /** "MNE B, A" text with a three-letter mnemonic and a comma-free B splits back into
      its parts. */
  lemma SplitBinaryText(m: string, sb: string, sa: string, m': string, tb: string, ta: string)
    requires |m| == 3 && |m'| == 3 && ',' !in sb && ',' !in tb
    requires m + " " + sb + ", " + sa == m' + " " + tb + ", " + ta
    ensures m == m' && sb == tb && sa == ta
  {
    assert m + " " + sb + ", " + sa == (m + " ") + (sb + ", " + sa);
    assert m' + " " + tb + ", " + ta == (m' + " ") + (tb + ", " + ta);
    SplitAtLength(m + " ", sb + ", " + sa, m' + " ", tb + ", " + ta);
    assert m == (m + " ")[..3] && m' == (m' + " ")[..3];
    SplitAtComma(sb, sa, tb, ta);
  }

  lemma MnemonicInjective(op: BinaryOp, op': BinaryOp)
    ensures Mnemonic(op) == Mnemonic(op') <==> op == op'
  {
  }

  /** Equal concatenations with equal-length heads have equal heads and tails. */
  lemma SplitAtLength(x: string, y: string, x': string, y': string)
    requires |x| == |x'| && x + y == x' + y'
    ensures x == x' && y == y'
  {
    assert x == (x + y)[..|x|] && x' == (x' + y')[..|x|];
    assert y == (x + y)[|x|..] && y' == (x' + y')[|x|..];
  }

  /** A comma-free prefix is recovered from "prefix, suffix". */
  lemma SplitAtComma(sb: string, sa: string, tb: string, ta: string)
    requires ',' !in sb && ',' !in tb
    requires sb + ", " + sa == tb + ", " + ta
    ensures sb == tb && sa == ta
  {
    var s := sb + ", " + sa;
    CommaAfterPrefix(sb, sa);
    CommaAfterPrefix(tb, ta);
    assert sb == s[..|sb|] && tb == s[..|tb|];
    assert sa == s[|sb| + 2..] && ta == s[|tb| + 2..];
  }

  /** The index of the first comma in `s`, or `|s|` when there is none. */
  function CommaIndex(s: string): (k: nat)
    ensures k <= |s|
  {
    if |s| == 0 || s[0] == ',' then 0 else 1 + CommaIndex(s[1..])
  }

  lemma {:induction false} CommaAfterPrefix(p: string, r: string)
    requires ',' !in p
    ensures CommaIndex(p + ", " + r) == |p|
  {
    if |p| != 0 {
      assert (p + ", " + r)[1..] == p[1..] + ", " + r;
      CommaAfterPrefix(p[1..], r);
    }
  }

  /** No operand prints a comma, so the comma in "B, A" separates the operands. */
  lemma NoComma(v: Value)
    ensures ',' !in Values.String(v)
  {
    match v
    case RegisterRelAddressValue(offset, reg) =>
      HexNoComma(offset, 4);
    case AddressValue(address) =>
      HexNoComma(address, 4);
    case WordValue(word) =>
      HexNoComma(word, 4);
    case LiteralValue(literal) =>
      HexNoComma(literal, 2);
    case _ =>
  }

  lemma HexNoComma(n: nat, width: nat)
    ensures ',' !in Hex.Hex(n, width)
  {
    assert ',' !in Hex.Digits;
  }
}
