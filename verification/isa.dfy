/**
 * The instruction format shared by both assemblers, both interpreters and the
 * disassembler: a word is four bytes (opcode, operand 1, operand 2, dest); the
 * opcode packs bit 6 = operand 1 is immediate, bit 5 = operand 2 is immediate,
 * bits 4-3 = instruction class, bits 2-0 = subtype.
 */
module Isa {
  import opened Wrappers

  type byte = x: int | 0 <= x < 256

  /** A subtype (bits 2-0 of an opcode) selects one mnemonic within a class. */
  type Sub = x: nat | x < 8

  /** A register index r0..r7. */
  type RegIndex = x: nat | x < 8

  datatype Word = Word(opcode: byte, op1: byte, op2: byte, dest: byte)

  // Opcode fields, as the interpreters decode them: (opcode >> 6) & 1, (opcode >> 5) & 1,
  // (opcode >> 3) & 0x3 and opcode & 0x7.
  function Imm1(opcode: byte): bool { opcode / 64 % 2 == 1 }

  function Imm2(opcode: byte): bool { opcode / 32 % 2 == 1 }

  function OpClass(opcode: byte): (c: nat)
    ensures c < 4
  {
    opcode / 8 % 4
  }

  function Subtype(opcode: byte): Sub { opcode % 8 }

  datatype OpClassName = Alu | Cond | Io

  /** The OPCLASS table: ALU = 0b00, COND = 0b01, IO = 0b10 (0b11 is unused). */
  function ClassBits(c: OpClassName): (b: nat)
    ensures b < 3
  {
    match c
    case Alu => 0
    case Cond => 1
    case Io => 2
  }

  /** The OPCODES table of both assemblers: mnemonic to (class, subtype). */
  const Opcodes: map<string, (OpClassName, Sub)> := map[
    "AND" := (Alu, 0), "ROR" := (Alu, 1), "ADD" := (Alu, 2), "XOR" := (Alu, 3),
    "OR" := (Alu, 4), "ROL" := (Alu, 5), "SUB" := (Alu, 6), "NOT" := (Alu, 7),
    "JMP" := (Cond, 0), "JNE" := (Cond, 1), "JGE" := (Cond, 2), "JGT" := (Cond, 3),
    "NOP" := (Cond, 4), "JEQ" := (Cond, 5), "JLT" := (Cond, 6), "JLE" := (Cond, 7),
    "MOV" := (Io, 0), "SWAP" := (Io, 1), "PUSH" := (Io, 2), "POP" := (Io, 3),
    "WRT" := (Io, 4), "CALL" := (Io, 5), "JRE" := (Io, 6), "HCF" := (Io, 7)
  ]

  /** The REGISTERS table of both assemblers: eight lower-case names and three aliases. */
  const Registers: map<string, RegIndex> := map[
    "r0" := 0, "r1" := 1, "r2" := 2, "r3" := 3, "r4" := 4, "r5" := 5, "r6" := 6, "r7" := 7,
    "RAMADDR" := 4, "RAMDATA" := 5, "PC" := 7
  ]

  type RegisterName = s: string | s in Registers witness "r0"

  /**
   * (imm1 << 6) | (imm2 << 5) | (class << 3) | subtype. The four fields occupy
   * disjoint bits, so the OR is a sum; decoding gives every field back.
   */
  function OpcodeByte(imm1: bool, imm2: bool, c: OpClassName, subtype: Sub): (b: byte)
    ensures b < 0x80
    ensures Imm1(b) == imm1 && Imm2(b) == imm2
    ensures OpClass(b) == ClassBits(c) && Subtype(b) == subtype
  {
    (if imm1 then 64 else 0) + (if imm2 then 32 else 0) + ClassBits(c) * 8 + subtype
  }

  /** A byte is its own residue modulo 256. */
  lemma ByteIsItsResidue(v: byte)
    ensures v % 256 == v
  {
  }

  /** Every opcode byte below 0x80 with a used class is the encoding of its own fields. */
  lemma OpcodeByteOfFields(b: byte, c: OpClassName)
    requires b < 0x80 && OpClass(b) == ClassBits(c)
    ensures OpcodeByte(Imm1(b), Imm2(b), c, Subtype(b)) == b
  {
    LowFields(b);
    HighFields(b);
  }

  /** The low five bits are the class and the subtype. */
  lemma LowFields(b: byte)
    ensures b % 32 == OpClass(b) * 8 + Subtype(b)
  {
  }

  /** Above the low five bits, a byte below 0x80 holds only the two immediate flags. */
  lemma HighFields(b: byte)
    requires b < 0x80
    ensures b == (if Imm1(b) then 64 else 0) + (if Imm2(b) then 32 else 0) + b % 32
  {
    if b < 32 {
    } else if b < 64 {
    } else if b < 96 {
    } else {
    }
  }

  /**
   * Instruction number `pc` of a program: the four bytes at pc * 4, or None
   * when they do not all lie inside the program.
   */
  function InstructionAt(program: seq<byte>, pc: byte): (w: Option<Word>)
    ensures w.None? <==> pc * 4 + 4 > |program|
    ensures w.Some? ==> w.value == Word(program[pc * 4], program[pc * 4 + 1], program[pc * 4 + 2], program[pc * 4 + 3])
  {
    if pc * 4 + 4 > |program| then None
    else Some(Word(program[pc * 4], program[pc * 4 + 1], program[pc * 4 + 2], program[pc * 4 + 3]))
  }
}
