/**
 * What the ALU and COND classes compute from their two operand values. Both
 * interpreters implement the same eight ALU operations and the same eight
 * unsigned branch tests; where they store the result differs and is modelled
 * with each interpreter.
 */
module Alu {
  import opened Isa
  import opened Bits

  /** The result of ALU subtype `sub` (AND ROR ADD XOR OR ROL SUB NOT) on a and b. */
  function AluResult(sub: Sub, a: byte, b: byte): (r: byte)
    ensures sub == 7 ==> r == 255 - a
    ensures (sub == 1 || sub == 5) && b % 8 == 0 ==> r == a
  {
    match sub
    case 0 => And(a, b)
    case 1 => (RotateByWholeByte(a, b); Ror(a, b))
    case 2 => (a + b) % 256
    case 3 => Xor(a, b)
    case 4 => Or(a, b)
    case 5 => (RotateByWholeByte(a, b); Rol(a, b))
    case 6 => (a - b) % 256
    case 7 => Not(a)
  }

  /** Whether COND subtype `sub` (JMP JNE JGE JGT NOP JEQ JLT JLE) branches, comparing unsigned bytes. */
  function CondHolds(sub: Sub, a: byte, b: byte): bool {
    match sub
    case 0 => true
    case 1 => a != b
    case 2 => a >= b
    case 3 => a > b
    case 4 => false
    case 5 => a == b
    case 6 => a < b
    case 7 => a <= b
  }

  /** The byte read as a two's-complement signed value, as JRE reads r0. */
  function Signed8(x: byte): (r: int)
    ensures -128 <= r < 128
    ensures r % 256 == x
  {
    if x >= 0x80 then x - 0x100 else x
  }

  /** SUB undoes ADD and ADD undoes SUB: both wrap modulo 256. */
  lemma AddSubInverse(a: byte, b: byte)
    ensures AluResult(6, AluResult(2, a, b), b) == a
    ensures AluResult(2, AluResult(6, a, b), b) == a
  {
    var s := (a + b) % 256;
    assert s == a + b || s == a + b - 256;
    var d := (a - b) % 256;
    assert d == a - b || d == a - b + 256;
  }

  /** ROL by b undoes ROR by b, and the other way round. */
  lemma RotationsUndoEachOther(a: byte, b: byte)
    ensures AluResult(5, AluResult(1, a, b), b) == a
    ensures AluResult(1, AluResult(5, a, b), b) == a
  {
    RolUndoesRor(a, b);
  }

  /** NOT ignores its second operand and is an involution. */
  lemma NotIsInvolution(a: byte, b: byte, c: byte)
    ensures AluResult(7, a, b) == AluResult(7, a, c)
    ensures AluResult(7, AluResult(7, a, b), c) == a
  {
  }

  /** The eight tests come in four complementary pairs: JMP/NOP, JNE/JEQ, JGE/JLT, JGT/JLE. */
  lemma ConditionsComplement(a: byte, b: byte)
    ensures CondHolds(0, a, b) == !CondHolds(4, a, b)
    ensures CondHolds(1, a, b) == !CondHolds(5, a, b)
    ensures CondHolds(2, a, b) == !CondHolds(6, a, b)
    ensures CondHolds(3, a, b) == !CondHolds(7, a, b)
  {
  }
}
