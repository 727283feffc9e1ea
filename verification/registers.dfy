/** Register identifiers and their names (core/register.go). */
module Registers {

  /** `RegisterId`: the eight general-purpose registers. The source's `String`
      panics for any other id, so the type admits only 0..7. */
  type RegisterId = x: int | 0 <= x < 8

  const RegA: RegisterId := 0
  const RegB: RegisterId := 1
  const RegC: RegisterId := 2
  const RegX: RegisterId := 3
  const RegY: RegisterId := 4
  const RegZ: RegisterId := 5
  const RegI: RegisterId := 6
  const RegJ: RegisterId := 7

  /** The register names in id order. */
  const Names: string := "ABCXYZIJ"

  /** `RegisterId.String`. */
  function Name(r: RegisterId): (s: string)
    ensures |s| == 1 && s[0] == Names[r]
  {
    match r
    case 0 => "A"
    case 1 => "B"
    case 2 => "C"
    case 3 => "X"
    case 4 => "Y"
    case 5 => "Z"
    case 6 => "I"
    case 7 => "J"
  }

  /** The eight names are pairwise distinct: a name identifies its register. */
  lemma NameInjective(r: RegisterId, q: RegisterId)
    ensures Name(r) == Name(q) <==> r == q
  {
    assert Name(r)[0] == Names[r] && Name(q)[0] == Names[q];
  }

  /** Every register name is a single upper-case letter. */
  lemma NameIsUpperCaseLetter(r: RegisterId)
    ensures 'A' <= Name(r)[0] <= 'Z'
  {
  }
}
