/** The error values of the core (core/instruction.go, core/value.go) and the
    result wrappers that stand for Go's `(value, error)` returns. */
module Errors {
  import opened Words
  import Hex

  datatype Error =
    | InvalidUnaryOpCodeError(opCode: Word)   // unary opcode field not JSR
    | InvalidBinaryOpCodeError(opCode: Word)  // binary opcode slot empty
    | ValueCodeError(code: Word)              // operand code above 0x3f
    | EndOfInput                              // a stream-backed word source ran dry

  const UnaryPrefix: string := "invalid unary opcode 0x"
  const BinaryPrefix: string := "invalid binary opcode 0x"
  const ValuePrefix: string := "invalid value code 0x"

  /** The text of `Error()`: a fixed prefix, then the offending field as `%02x`. */
  function Message(e: Error): (s: string)
    ensures e.InvalidUnaryOpCodeError? ==> s == UnaryPrefix + Hex.Hex(e.opCode, 2)
    ensures e.InvalidBinaryOpCodeError? ==> s == BinaryPrefix + Hex.Hex(e.opCode, 2)
    ensures e.ValueCodeError? ==> s == ValuePrefix + Hex.Hex(e.code, 2)
  {
    match e
    case InvalidUnaryOpCodeError(op) => UnaryPrefix + Hex.Hex(op, 2)
    case InvalidBinaryOpCodeError(op) => BinaryPrefix + Hex.Hex(op, 2)
    case ValueCodeError(code) => ValuePrefix + Hex.Hex(code, 2)
    case EndOfInput => "EOF"
  }

  /** The offending field can be read back from an opcode message. */
  lemma MessageNamesField(e: Error)
    requires e.InvalidUnaryOpCodeError? || e.InvalidBinaryOpCodeError?
    ensures var prefix := if e.InvalidUnaryOpCodeError? then UnaryPrefix else BinaryPrefix;
            && prefix <= Message(e)
            && Hex.ParseHex(Message(e)[|prefix|..]) == e.opCode
  {
    var prefix := if e.InvalidUnaryOpCodeError? then UnaryPrefix else BinaryPrefix;
    assert Message(e)[|prefix|..] == Hex.Hex(e.opCode, 2);
    Hex.HexRoundTrip(e.opCode, 2);
  }

  /** A value or the error that stopped its computation. */
  datatype Result<+T> = Ok(value: T) | Err(error: Error)

  /** The absence of a value: success or an error. */
  datatype Outcome = Pass | Fail(error: Error)

  datatype Option<+T> = None | Some(value: T)
}
