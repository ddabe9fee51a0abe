/**
 * The browser interpreter's `disassemble` (web/src/vm.js): one instruction
 * word to one line of text, using the same mnemonic order as the opcode
 * table. It is a pure function of the four bytes.
 */
module WebDisassembler {
  import opened Isa
  import opened Text

  const AluNames: seq<string> := ["AND", "ROR", "ADD", "XOR", "OR", "ROL", "SUB", "NOT"]
  const CondNames: seq<string> := ["JMP", "JNE", "JGE", "JGT", "NOP", "JEQ", "JLT", "JLE"]
  const IoNames: seq<string> := ["MOV", "SWAP", "PUSH", "POP", "WRT", "CALL", "JRE", "HCF"]

  /** The mnemonic the disassembler prints for class bits c and a subtype. */
  function MnemonicOf(c: nat, sub: Sub): string
    requires c < 3
  {
    if c == 0 then AluNames[sub] else if c == 1 then CondNames[sub] else IoNames[sub]
  }

  function ClassNamed(c: nat): OpClassName
    requires c < 3
  {
    if c == 0 then Alu else if c == 1 then Cond else Io
  }

  /** The disassembler's name lists are the opcode table read backwards. */
  lemma MnemonicsMatchOpcodeTable(c: nat, sub: Sub)
    requires c < 3
    ensures MnemonicOf(c, sub) in Opcodes
    ensures Opcodes[MnemonicOf(c, sub)] == (ClassNamed(c), sub)
    ensures ClassBits(ClassNamed(c)) == c
  {
  }

  /** `r${idx & 7}` */
  function RegName(idx: byte): (s: string)
    ensures s in Registers && Registers[s] == idx % 8
  {
    var d := idx % 8;
    assert Decimal(d) == [('0' as int + d) as char];
    var s := "r" + Decimal(d);
    assert s == ["r0", "r1", "r2", "r3", "r4", "r5", "r6", "r7"][d];
    s
  }

  /** `0x` and two upper-case hexadecimal digits. */
  function HexLiteral(val: byte): string {
    "0x" + HexByte(val, true)
  }

  /** An operand: a hexadecimal literal when immediate, a register name otherwise. */
  function OperandText(val: byte, imm: bool): string {
    if imm then HexLiteral(val) else RegName(val)
  }

  /** The WRT operand: printable immediates in format 0 are shown as a quoted character. */
  function WrtOperandText(op1: byte, imm: bool, fmt: nat): string {
    if !imm then RegName(op1)
    else if fmt == 0 then
      if op1 == 0 then "0x00"
      else if op1 < 32 || op1 > 126 || op1 == 34 || op1 == 44 || op1 == 32 then HexLiteral(op1)
      else "\"" + [op1 as char] + "\""
    else if fmt == 1 || fmt == 2 then Decimal(op1)
    else HexLiteral(op1)
  }

  /** The trailing comment naming the WRT format; format 0 is spelled differently for a register. */
  function WrtComment(imm: bool, fmt: nat): string {
    if fmt == 0 then (if imm then "; UTF-8" else "; UTF8")
    else if fmt == 1 then "; DEC"
    else if fmt == 2 then "; ALP"
    else "; HEX"
  }

  /** The text is the mnemonic alone or the mnemonic followed by a space. */
  predicate HeadedBy(text: string, op: string) {
    StartsWith(text, op) && (|text| == |op| || text[|op|] == ' ')
  }

  /** One space after the mnemonic, then a comma and a space between operands. */
  function ListingSeparators(n: nat): (seps: seq<string>)
    ensures |seps| == n
  {
    if n == 0 then [] else [" "] + seq(n - 1, _ => ", ")
  }

  /** `${op} ${a}, ${b}, ...`, or the mnemonic alone when it has no operands. */
  function Listing(op: string, operands: seq<string>): (text: string)
    ensures HeadedBy(text, op)
  {
    var text := Interleave([op] + operands, ListingSeparators(|operands|));
    assert text[..|op|] == op;
    text
  }

  /** The operands an ALU line shows: NOT shows no second source. */
  function AluOperands(sub: Sub, imm1: bool, imm2: bool, op1: byte, op2: byte, dest: byte): seq<string> {
    if sub == 7 then [OperandText(op1, imm1), RegName(dest)]
    else [OperandText(op1, imm1), OperandText(op2, imm2), RegName(dest)]
  }

  /** JMP shows only its target, padded; NOP nothing; the other branches both sources and an unpadded target. */
  function CondOperands(sub: Sub, imm1: bool, imm2: bool, op1: byte, op2: byte, dest: byte): seq<string> {
    if sub == 0 then ["0x" + HexByte(dest, true)]
    else if sub == 4 then []
    else [OperandText(op1, imm1), OperandText(op2, imm2), "0x" + Numeral(dest, 16, true)]
  }

  /** The operands an IO line shows, per subtype; JRE and HCF show none. */
  function IoOperands(sub: Sub, imm1: bool, op1: byte, op2: byte, dest: byte): seq<string> {
    match sub
    case 0 => [OperandText(op1, imm1), RegName(dest)]  // MOV
    case 1 => [RegName(op1), RegName(dest)]  // SWAP
    case 2 => [OperandText(op1, imm1)]  // PUSH
    case 3 => [RegName(dest)]  // POP
    case 4 => [WrtOperandText(op1, imm1, op2 % 4), "0b" + PadTwo(Numeral(op2 % 4, 2, false))]  // WRT
    case 5 => [OperandText(op1, imm1)]  // CALL
    case _ => []  // JRE, HCF
  }

  /** The operand texts of a word of class 0, 1 or 2, in the order printed. */
  function Operands(opcode: byte, op1: byte, op2: byte, dest: byte): seq<string>
    requires OpClass(opcode) < 3
  {
    var imm1, imm2, sub := Imm1(opcode), Imm2(opcode), Subtype(opcode);
    if OpClass(opcode) == 0 then AluOperands(sub, imm1, imm2, op1, op2, dest)
    else if OpClass(opcode) == 1 then CondOperands(sub, imm1, imm2, op1, op2, dest)
    else IoOperands(sub, imm1, op1, op2, dest)
  }

  /** What follows the operands: a space and the format comment on a WRT line, nothing on any other. */
  function Trailer(opcode: byte, op2: byte): string {
    if OpClass(opcode) == 2 && Subtype(opcode) == 4 then " " + WrtComment(Imm1(opcode), op2 % 4) else []
  }

  /**
   * disassemble: class bits 0b11 give "???"; otherwise the mnemonic of the
   * class and subtype, the operand texts and, for WRT, the format comment.
   */
  function Disassemble(opcode: byte, op1: byte, op2: byte, dest: byte): (text: string)
    ensures OpClass(opcode) == 3 <==> text == "???"
    ensures OpClass(opcode) < 3 ==> HeadedBy(text, MnemonicOf(OpClass(opcode), Subtype(opcode)))
  {
    var c := OpClass(opcode);
    if c == 3 then "???"
    else
      var op := MnemonicOf(c, Subtype(opcode));
      var listing, trailer := Listing(op, Operands(opcode, op1, op2, dest)), Trailer(opcode, op2);
      HeadKept(listing, op, trailer);
      MnemonicLeadsWithLetter(c, Subtype(opcode));
      LetterLedIsKnown(listing + trailer, op);
      listing + trailer
  }

  /** A comment appended after a space leaves the mnemonic at the head of the line. */
  lemma HeadKept(listing: string, op: string, trailer: string)
    requires HeadedBy(listing, op) && (trailer == [] || trailer[0] == ' ')
    ensures HeadedBy(listing + trailer, op)
  {
    assert (listing + trailer)[..|op|] == listing[..|op|];
  }

  /** Every mnemonic starts with an upper-case letter. */
  lemma MnemonicLeadsWithLetter(c: nat, sub: Sub)
    requires c < 3
    ensures MnemonicOf(c, sub) != [] && 'A' <= MnemonicOf(c, sub)[0] <= 'Z'
  {
    var names := if c == 0 then AluNames else if c == 1 then CondNames else IoNames;
    assert MnemonicOf(c, sub) == names[sub];
    assert forall i :: 0 <= i < 8 ==> names[i] != [] && 'A' <= names[i][0] <= 'Z';
  }

  /** A line headed by a mnemonic is not the unknown-class marker. */
  lemma LetterLedIsKnown(text: string, op: string)
    requires HeadedBy(text, op) && op != [] && 'A' <= op[0] <= 'Z'
    ensures text != "???"
  {
    assert text[0] == op[0];
  }
}
