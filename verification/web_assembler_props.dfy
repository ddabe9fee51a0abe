/**
 * Properties of the browser assembler: how operand values are read back,
 * how the operand text the disassembler prints reassembles, what the patch
 * step writes, and the shape of the emitted bytes and hexadecimal dump.
 */
module WebAssemblerProps {
  import opened Wrappers
  import opened Isa
  import opened Text
  import opened WebDisassembler
  import opened WebAssembler

  // ---- values ----

  /** A digit of radix 10 is one of '0'..'9'. */
  lemma DecimalDigit(c: char)
    requires IsDigitIn(c, 10)
    ensures IsDigit(c)
  {
  }

  /** A numeral in radix 10 is a decimal literal. */
  lemma DecimalIsDigits(n: nat)
    ensures Decimal(n) != [] && AllDigits(Decimal(n))
  {
    var s := Decimal(n);
    forall i | 0 <= i < |s|
      ensures IsDigit(s[i])
    {
      DecimalDigit(s[i]);
    }
  }

  /** A key starting with a digit is none of the register names. */
  lemma DigitLedKeyIsNoRegister(s: string)
    requires s != [] && IsDigit(s[0])
    ensures s !in Registers && !IsUppercaseRegisterName(s)
  {
  }

  /** The register names are lower-case or aliases, so none of them trips the `R0`-`R7` guard. */
  lemma RegisterNamesPassGuard(s: string)
    requires s in Registers
    ensures !IsUppercaseRegisterName(s)
  {
  }

  /**
   * isRegister on a number or on undefined: the key ("123" or "undefined")
   * is never a register name, so the answer is false and nothing is thrown.
   */
  lemma NonStringsAreNotRegisters(n: nat)
    ensures IsRegister(Num(n)) == Ok(false)
    ensures IsRegister(Undefined) == Ok(false)
  {
    DecimalIsDigits(n);
    DigitLedKeyIsNoRegister(Decimal(n));
  }

  /** A digit string has nothing for `trim` to remove. */
  lemma DigitsTrimToThemselves(s: string, radix: nat)
    requires s != [] && radix <= 16
    requires IsDigitIn(s[0], radix) && IsDigitIn(s[|s| - 1], radix)
    ensures JsTrim(s) == s
  {
    DigitIsNotSpace(s[0], radix);
    DigitIsNotSpace(s[|s| - 1], radix);
    TrimKeeps(s, IsJsSpace);
  }

  /** parseValue reads the decimal numeral of n back as n reduced to a byte. */
  lemma DecimalReadsBack(n: nat, constants: map<string, Constant>)
    requires Decimal(n) !in constants
    ensures ParseValue(Str(Decimal(n)), constants) == Ok(n % 256)
  {
    var s := Decimal(n);
    DigitsTrimToThemselves(s, 10);
    DecimalIsDigits(n);
    assert !IsCharLiteral(s) by {
      DecimalDigit(s[0]);
    }
    assert !StartsWith(s, "0x") && !StartsWith(s, "0b") by {
      if |s| >= 2 {
        assert s[0] != '0';
      }
    }
  }

  /** `0x` and text ending in a hexadecimal digit: nothing to trim, and the text follows the prefix. */
  lemma HexLiteralShape(h: string)
    requires h != [] && IsDigitIn(h[|h| - 1], 16)
    ensures JsTrim("0x" + h) == "0x" + h
    ensures StartsWith("0x" + h, "0x") && ("0x" + h)[2..] == h
    ensures !IsCharLiteral("0x" + h)
  {
    var t := "0x" + h;
    assert t[0] == '0' && t[|t| - 1] == h[|h| - 1];
    DigitIsNotSpace(t[0], 16);
    DigitIsNotSpace(t[|t| - 1], 16);
    TrimKeeps(t, IsJsSpace);
    assert t[..2] == "0x";
  }

  /** `0x` and text ending in a hexadecimal digit, naming no constant, is read as that text in radix 16. */
  lemma ParseValueOfHex(h: string, constants: map<string, Constant>)
    requires h != [] && IsDigitIn(h[|h| - 1], 16) && "0x" + h !in constants
    ensures ParseValue(Str("0x" + h), constants) == Ok(ParseIntByte(h, 16))
  {
    HexLiteralShape(h);
  }

  /** parseValue reads `0x` and two hexadecimal digits back as their value. */
  lemma HexLiteralReadsBack(v: byte, upper: bool, constants: map<string, Constant>)
    requires "0x" + HexByte(v, upper) !in constants
    ensures ParseValue(Str("0x" + HexByte(v, upper)), constants) == Ok(v)
  {
    var h := HexByte(v, upper);
    ParseValueOfHex(h, constants);
    HexByteParses(v, upper);
  }

  /** `parseInt` of the two digits of a byte, in radix 16, is the byte. */
  lemma HexByteParses(v: byte, upper: bool)
    ensures ParseIntByte(HexByte(v, upper), 16) == v
  {
    var h := HexByte(v, upper);
    HexDigitsParse(h, v);
  }

  /** `parseInt` of hexadecimal digits whose value is a byte gives that byte. */
  lemma HexDigitsParse(h: string, v: byte)
    requires h != [] && forall i :: 0 <= i < |h| ==> IsDigitIn(h[i], 16)
    requires DigitsValue(h, 16) == v
    ensures ParseIntByte(h, 16) == v
  {
    JsParseIntOfDigits(h, 16);
    ParsedByte(h, 16, v);
  }

  /** A `parseInt` result that is already a byte is kept by the `& 0xff`. */
  lemma ParsedByte(digits: string, radix: nat, v: byte)
    requires (radix == 2 || radix == 16) && JsParseInt(digits, radix) == Some(v as int)
    ensures ParseIntByte(digits, radix) == v
  {
  }

  /**
   * parseValue reads a quoted character back as its code reduced to a byte;
   * the character must be a single UTF-16 code unit.
   */
  lemma CharLiteralReadsBack(q: char, c: char, constants: map<string, Constant>)
    requires IsQuote(q) && !IsJsLineTerminator(c) && (c as int) < CodeUnitLimit
    requires [q, c, q] !in constants
    ensures ParseValue(Str([q, c, q]), constants) == Ok(c as int % 256)
  {
    TrimKeeps([q, c, q], IsJsSpace);
  }

  /**
   * A quoted character outside the Basic Multilingual Plane is two code units
   * to the quoted-character pattern, so parseValue finds nothing it knows and
   * throws "Unknown value".
   */
  lemma WideCharLiteralIsUnknown(q: char, c: char, constants: map<string, Constant>)
    requires IsQuote(q) && (c as int) >= CodeUnitLimit
    requires [q, c, q] !in constants
    ensures ParseValue(Str([q, c, q]), constants) == Err(UnknownValue([q, c, q]))
  {
    TrimKeeps([q, c, q], IsJsSpace);
  }

  /**
   * The operand text the disassembler prints reassembles: a register name
   * clears the immediate bit and encodes as its index, a `0x` literal sets
   * it and encodes as its value.
   */
  lemma OperandTextRoundTrip(v: byte, imm: bool, constants: map<string, Constant>)
    requires imm ==> HexLiteral(v) !in constants
    ensures ImmediateFlag(Str(OperandText(v, imm))) == Ok(imm)
    ensures EncodeOperand(Str(OperandText(v, imm)), constants) == Ok(if imm then v else v % 8)
  {
    if imm {
      var t := HexLiteral(v);
      DigitLedKeyIsNoRegister(t);
      HexLiteralReadsBack(v, true, constants);
    } else {
      RegisterNamesPassGuard(RegName(v));
    }
  }

  /**
   * A numeric constant substituted into a slot: 0 is falsy and encodes as r0
   * with the immediate bit clear; any other number sets the immediate bit
   * but cannot be encoded, because parseValue calls `trim` on it.
   */
  lemma NumericConstantOperand(n: nat, constants: map<string, Constant>)
    ensures ImmediateFlag(Num(n)) == Ok(n != 0)
    ensures EncodeOperand(Num(n), constants) == if n == 0 then Ok(0) else Err(TypeError)
  {
    NonStringsAreNotRegisters(n);
  }

  /**
   * A slot naming a known label becomes the label's pc as a decimal string,
   * which encodes as an immediate pc reduced to a byte.
   */
  lemma KnownLabelOperand(v: JsValue, labels: map<string, nat>, constants: map<string, Constant>)
    requires KeyOf(v) in labels && Decimal(labels[KeyOf(v)]) !in constants
    ensures var (slot, pending) := ResolveSlot(v, labels, constants);
      pending.None? && ImmediateFlag(slot) == Ok(true)
      && EncodeOperand(slot, constants) == Ok(labels[KeyOf(v)] % 256)
  {
    var pc := labels[KeyOf(v)];
    NonStringsAreNotRegisters(pc);
    DecimalIsDigits(pc);
    DecimalReadsBack(pc, constants);
    assert ResolveSlot(v, labels, constants) == (Str(Decimal(pc)), None);
  }

  /**
   * A `$name` slot whose label is not known yet is recorded as pending and
   * holds the placeholder "0", a truthy string: the immediate bit is set and
   * the byte is 0 until the patch step overwrites it.
   */
  lemma ForwardReferencePlaceholder(name: string, labels: map<string, nat>, constants: map<string, Constant>)
    requires "$" + name !in labels && "0" !in constants
    ensures var (slot, pending) := ResolveSlot(Str("$" + name), labels, constants);
      pending == Some(name) && ImmediateFlag(slot) == Ok(true) && EncodeOperand(slot, constants) == Ok(0)
  {
    PlaceholderSlot(name, labels, constants);
    ZeroOperand(constants);
  }

  lemma PlaceholderSlot(name: string, labels: map<string, nat>, constants: map<string, Constant>)
    requires "$" + name !in labels && "0" !in constants
    ensures ResolveSlot(Str("$" + name), labels, constants) == (Str("0"), Some(name))
  {
    assert StartsWith("$" + name, "$");
    assert ("$" + name)[1..] == name;
  }

  /** The string "0" is truthy and no register: an immediate 0. */
  lemma ZeroOperand(constants: map<string, Constant>)
    requires "0" !in constants
    ensures ImmediateFlag(Str("0")) == Ok(true) && EncodeOperand(Str("0"), constants) == Ok(0)
  {
    DigitLedKeyIsNoRegister("0");
    ZeroReadsBack(constants);
  }

  /** parseValue reads "0" as 0. */
  lemma ZeroReadsBack(constants: map<string, Constant>)
    requires "0" !in constants
    ensures ParseValue(Str("0"), constants) == Ok(0)
  {
    assert Decimal(0) == "0";
    DecimalReadsBack(0, constants);
  }

  // ---- first pass ----

  /**
   * The first pass queues, after whatever it was given, exactly the cleaned
   * lines that are neither blank nor defines, in source order with their
   * indices; constants have no say in it.
   */
  lemma {:induction false} FirstPassQueuesLines(lines: seq<string>, i: nat, constants: map<string, Constant>,
                                               queue: seq<Queued>)
    requires i <= |lines|
    ensures FirstPassFrom(lines, i, constants, queue).Ok? ==>
      FirstPassFrom(lines, i, constants, queue).value.1 == queue + QueuedFrom(lines, i)
    decreases |lines| - i
  {
    if i < |lines| {
      var line := CleanLine(lines, i);
      var step := FirstPassLine(line, i, constants, queue);
      if step.Ok? {
        FirstPassLineQueues(line, i, constants, queue);
        FirstPassQueuesLines(lines, i + 1, step.value.0, step.value.1);
        QueuedFromStep(lines, i, queue);
      }
    } else {
      assert queue + [] == queue;
    }
  }

  /** One line: queued exactly when it is neither blank nor a define. */
  lemma FirstPassLineQueues(line: string, i: nat, constants: map<string, Constant>, queue: seq<Queued>)
    requires FirstPassLine(line, i, constants, queue).Ok?
    ensures FirstPassLine(line, i, constants, queue).value.1 == queue + (if Queues(line) then [Queued(line, i)] else [])
  {
    if !Queues(line) {
      assert queue + [] == queue;
    }
  }

  lemma QueuedFromStep(lines: seq<string>, i: nat, queue: seq<Queued>)
    requires i < |lines|
    ensures var line := CleanLine(lines, i);
      queue + (if Queues(line) then [Queued(line, i)] else []) + QueuedFrom(lines, i + 1) == queue + QueuedFrom(lines, i)
  {
    var line := CleanLine(lines, i);
    var head, rest := (if Queues(line) then [Queued(line, i)] else []), QueuedFrom(lines, i + 1);
    assert QueuedFrom(lines, i) == head + rest;
    QueueAppend(queue, head, rest);
  }

  lemma QueueAppend(queue: seq<Queued>, head: seq<Queued>, rest: seq<Queued>)
    ensures queue + head + rest == queue + (head + rest)
  {
  }

  // ---- words ----

  /**
   * The full three-operand form of a listing (a register name or a `0x`
   * literal per source operand, a register name for the destination) behind
   * the disassembler's mnemonic encodes back into the same word. This is the
   * form the disassembler prints for ALU words other than NOT; the other
   * forms are read back through the whole assembler in WebRoundTrip.
   */
  lemma OperandTextsReassemble(w: Word, constants: map<string, Constant>)
    requires w.opcode < 0x80 && OpClass(w.opcode) < 3
    requires !Imm1(w.opcode) ==> w.op1 < 8
    requires !Imm2(w.opcode) ==> w.op2 < 8
    requires w.dest < 8
    requires Imm1(w.opcode) ==> HexLiteral(w.op1) !in constants
    requires Imm2(w.opcode) ==> HexLiteral(w.op2) !in constants
    ensures MnemonicOf(OpClass(w.opcode), Subtype(w.opcode)) in Opcodes
    ensures EncodeWord(MnemonicOf(OpClass(w.opcode), Subtype(w.opcode)),
      Str(OperandText(w.op1, Imm1(w.opcode))), Str(OperandText(w.op2, Imm2(w.opcode))),
      Str(OperandText(w.dest, false)), constants) == Ok(w)
  {
    var c := OpClass(w.opcode);
    var m := MnemonicOf(c, Subtype(w.opcode));
    var t1, t2, t3 := Str(OperandText(w.op1, Imm1(w.opcode))), Str(OperandText(w.op2, Imm2(w.opcode))),
      Str(OperandText(w.dest, false));
    MnemonicsMatchOpcodeTable(c, Subtype(w.opcode));
    OperandTextEncodes(w.op1, Imm1(w.opcode), constants);
    OperandTextEncodes(w.op2, Imm2(w.opcode), constants);
    OperandTextEncodes(w.dest, false, constants);
    EncodeOpcodeOfFlags(m, t1, t2, Imm1(w.opcode), Imm2(w.opcode));
    OpcodeByteOfFields(w.opcode, ClassNamed(c));
    assert EncodeOpcode(m, t1, t2) == Ok(w.opcode);
    EncodeWordOfParts(m, t1, t2, t3, constants, w);
  }

  /** An operand text whose register index is below 8 encodes as exactly its value. */
  lemma OperandTextEncodes(v: byte, imm: bool, constants: map<string, Constant>)
    requires imm ==> HexLiteral(v) !in constants
    requires !imm ==> v < 8
    ensures ImmediateFlag(Str(OperandText(v, imm))) == Ok(imm)
    ensures EncodeOperand(Str(OperandText(v, imm)), constants) == Ok(v)
  {
    OperandTextRoundTrip(v, imm, constants);
  }

  /** encodeOpcode packs the two immediate flags with the table's class and subtype. */
  lemma EncodeOpcodeOfFlags(m: string, op1: JsValue, op2: JsValue, imm1: bool, imm2: bool)
    requires m in Opcodes && ImmediateFlag(op1) == Ok(imm1) && ImmediateFlag(op2) == Ok(imm2)
    ensures EncodeOpcode(m, op1, op2) == Ok(OpcodeByte(imm1, imm2, Opcodes[m].0, Opcodes[m].1))
  {
  }

  /** A word whose four parts each encode is the encoding of the instruction. */
  lemma EncodeWordOfParts(m: string, op1: JsValue, op2: JsValue, dest: JsValue,
                          constants: map<string, Constant>, w: Word)
    requires m in Opcodes && EncodeOpcode(m, op1, op2) == Ok(w.opcode)
    requires EncodeOperand(op1, constants) == Ok(w.op1) && EncodeOperand(op2, constants) == Ok(w.op2)
    requires EncodeOperand(dest, constants) == Ok(w.dest)
    ensures EncodeWord(m, op1, op2, dest, constants) == Ok(w)
  {
  }

  // ---- patching ----

  /** Operand slot 0, 1 or 2 of a word. */
  function SlotOf(w: Word, slot: nat): byte
    requires slot < 3
  {
    if slot == 0 then w.op1 else if slot == 1 then w.op2 else w.dest
  }

  /** Writing a slot changes that slot and nothing else of the word. */
  lemma SetSlotReadsBack(w: Word, slot: nat, b: byte, other: nat)
    requires slot < 3 && other < 3
    ensures SlotOf(SetSlot(w, slot, b), other) == if other == slot then b else SlotOf(w, other)
    ensures SetSlot(w, slot, b).opcode == w.opcode
  {
  }

  /** (index, slot) of u comes strictly before that of v. */
  predicate Before(u: Unresolved, v: Unresolved) {
    u.index < v.index || (u.index == v.index && u.slot < v.slot)
  }

  /** The forward references in strictly increasing (index, slot) order, so no slot is listed twice. */
  predicate Ordered(unresolved: seq<Unresolved>) {
    forall a, b :: 0 <= a < b < |unresolved| ==> Before(unresolved[a], unresolved[b])
  }

  /** The references slot-indexes can be patched into. */
  predicate InRange(unresolved: seq<Unresolved>, output: seq<Word>) {
    forall u :: u in unresolved ==> u.index < |output| && u.slot < 3
  }

  /** Patching from entry j keeps every opcode and every slot no entry from j on refers to. */
  lemma {:induction false} PatchKeepsOthers(unresolved: seq<Unresolved>, j: nat, labels: map<string, nat>,
                                           output: seq<Word>, i: nat, slot: nat)
    requires j <= |unresolved| && InRange(unresolved, output)
    requires PatchFrom(unresolved, j, labels, output).Ok?
    requires i < |output| && slot < 3
    ensures PatchFrom(unresolved, j, labels, output).value[i].opcode == output[i].opcode
    ensures (forall k :: j <= k < |unresolved| ==> unresolved[k].index != i || unresolved[k].slot != slot)
      ==> SlotOf(PatchFrom(unresolved, j, labels, output).value[i], slot) == SlotOf(output[i], slot)
    decreases |unresolved| - j
  {
    if j < |unresolved| {
      var u := unresolved[j];
      assert u in unresolved;
      var patched := output[u.index := SetSlot(output[u.index], u.slot, labels["$" + u.target] % 256)];
      SetSlotReadsBack(output[u.index], u.slot, labels["$" + u.target] % 256, slot);
      PatchKeepsOthers(unresolved, j + 1, labels, patched, i, slot);
    }
  }

  /** After patching from entry j, every entry from j on holds its label's pc reduced to a byte. */
  lemma {:induction false} PatchFillsReferences(unresolved: seq<Unresolved>, j: nat, labels: map<string, nat>,
                                               output: seq<Word>, k: nat)
    requires j <= k < |unresolved| && InRange(unresolved, output) && Ordered(unresolved)
    requires PatchFrom(unresolved, j, labels, output).Ok?
    ensures "$" + unresolved[k].target in labels
    ensures SlotOf(PatchFrom(unresolved, j, labels, output).value[unresolved[k].index], unresolved[k].slot)
      == labels["$" + unresolved[k].target] % 256
    decreases |unresolved| - j
  {
    var u := unresolved[j];
    assert u in unresolved;
    var patched := output[u.index := SetSlot(output[u.index], u.slot, labels["$" + u.target] % 256)];
    if k == j {
      SetSlotReadsBack(output[u.index], u.slot, labels["$" + u.target] % 256, u.slot);
      assert forall k' :: j + 1 <= k' < |unresolved| ==> Before(u, unresolved[k']);
      PatchKeepsOthers(unresolved, j + 1, labels, patched, u.index, u.slot);
    } else {
      PatchFillsReferences(unresolved, j + 1, labels, patched, k);
    }
  }

  /** ResolveSlots appends its references after every earlier one, in slot order. */
  lemma {:induction false} ResolveSlotsOrdered(slots: seq<JsValue>, i: nat, st: Pass2)
    requires |slots| == 3 && i <= 3 && Ordered(st.unresolved)
    requires forall u :: u in st.unresolved ==> Before(u, Unresolved(|st.output|, i, ""))
    ensures Ordered(ResolveSlots(slots, i, st).1)
    decreases 3 - i
  {
    if i < 3 {
      var (v, pending) := ResolveSlot(slots[i], st.labels, st.constants);
      var unresolved := if pending.Some? then st.unresolved + [Unresolved(|st.output|, i, pending.value)] else st.unresolved;
      var next := st.(unresolved := unresolved);
      if pending.Some? {
        AppendKeepsOrder(st.unresolved, |st.output|, i, pending.value);
      } else {
        LaterSlotBound(st.unresolved, |st.output|, i);
      }
      ResolveSlotsOrdered(slots[i := v], i + 1, next);
    }
  }

  /** Appending a reference to slot i after references before it keeps the order and the bound. */
  lemma AppendKeepsOrder(us: seq<Unresolved>, index: nat, i: nat, target: string)
    requires Ordered(us) && forall u :: u in us ==> Before(u, Unresolved(index, i, ""))
    ensures Ordered(us + [Unresolved(index, i, target)])
    ensures forall u :: u in us + [Unresolved(index, i, target)] ==> Before(u, Unresolved(index, i + 1, ""))
  {
    var vs := us + [Unresolved(index, i, target)];
    forall a, b | 0 <= a < b < |vs|
      ensures Before(vs[a], vs[b])
    {
      assert vs[a] in us;
      if b < |us| {
        assert vs[b] == us[b];
      }
    }
  }

  /** References before slot i of an instruction are before slot i + 1. */
  lemma LaterSlotBound(us: seq<Unresolved>, index: nat, i: nat)
    requires forall u :: u in us ==> Before(u, Unresolved(index, i, ""))
    ensures forall u :: u in us ==> Before(u, Unresolved(index, i + 1, ""))
  {
  }

  /** An instruction line keeps the references ordered. */
  lemma InstructionKeepsOrder(origLine: nat, mnemonic: string, operands: seq<string>, st: Pass2)
    requires st.WellFormed() && Ordered(st.unresolved)
    ensures AssembleInstruction(origLine, mnemonic, operands, st).Ok?
      ==> Ordered(AssembleInstruction(origLine, mnemonic, operands, st).value.unresolved)
  {
    var args := HandleShorthand(mnemonic, operands);
    var slots := [ArgAt(args, 0), ArgAt(args, 1), ArgAt(args, 2)];
    InstructionReferences(origLine, mnemonic, operands, st);
    ResolveSlotsOrdered(slots, 0, st);
  }

  /** An instruction line's references are those ResolveSlots lists for its three slots. */
  lemma InstructionReferences(origLine: nat, mnemonic: string, operands: seq<string>, st: Pass2)
    requires st.WellFormed()
    ensures var args := HandleShorthand(mnemonic, operands);
      AssembleInstruction(origLine, mnemonic, operands, st).Ok?
      ==> (AssembleInstruction(origLine, mnemonic, operands, st).value.unresolved
           == ResolveSlots([ArgAt(args, 0), ArgAt(args, 1), ArgAt(args, 2)], 0, st).1)
  {
  }

  /** A non-blank line keeps the references ordered: `LABEL` adds none. */
  lemma TokensKeepOrder(origLine: nat, line: string, st: Pass2)
    requires st.WellFormed() && Ordered(st.unresolved)
    ensures AssembleTokens(origLine, line, st).Ok? ==> Ordered(AssembleTokens(origLine, line, st).value.unresolved)
  {
    var tokens := SplitFields(JsTrim(line), IsJsSpace);
    InstructionKeepsOrder(origLine, ToUpperAscii(tokens[0]), tokens[1..], st);
  }

  /** One line of the second pass keeps the references ordered. */
  lemma LineKeepsOrder(q: Queued, st: Pass2)
    requires st.WellFormed() && Ordered(st.unresolved)
    ensures AssembleLine(q, st).Ok? ==> Ordered(AssembleLine(q, st).value.unresolved)
  {
    TokensKeepOrder(q.origLine, StripLabels(q.line), st);
  }

  /** The second pass lists its forward references in strictly increasing (index, slot) order. */
  lemma {:induction false} SecondPassOrdered(queue: seq<Queued>, k: nat, st: Pass2)
    requires k <= |queue| && st.WellFormed() && Ordered(st.unresolved)
    ensures SecondPassFrom(queue, k, st).Ok? ==> Ordered(SecondPassFrom(queue, k, st).value.unresolved)
    decreases |queue| - k
  {
    if k < |queue| {
      LineKeepsOrder(queue[k], st);
      var next := AssembleLine(queue[k], st);
      if next.Ok? {
        SecondPassOrdered(queue, k + 1, next.value);
      }
    }
  }

  // ---- output ----

  /** Bytes 4k..4k+3 of the flattened program are word k's opcode, operands and destination. */
  lemma {:induction false} FlattenAt(words: seq<Word>, k: nat)
    requires k < |words|
    ensures Flatten(words)[4 * k] == words[k].opcode && Flatten(words)[4 * k + 1] == words[k].op1
    ensures Flatten(words)[4 * k + 2] == words[k].op2 && Flatten(words)[4 * k + 3] == words[k].dest
  {
    if k > 0 {
      FlattenAt(words[1..], k - 1);
      assert Flatten(words)[4..] == Flatten(words[1..]);
    }
  }

  /** The dump is two digits per byte with one space between neighbours. */
  lemma {:induction false} HexDumpLength(bytes: seq<byte>)
    requires bytes != []
    ensures |HexDump(bytes)| == 3 * |bytes| - 1
  {
    if |bytes| > 1 {
      HexDumpLength(bytes[1..]);
    }
  }

  /**
   * Characters 3k and 3k+1 of the dump are byte k's two lower-case digits,
   * and character 3k+2 is a space unless byte k is the last.
   */
  lemma {:induction false} HexDumpAt(bytes: seq<byte>, k: nat)
    requires k < |bytes|
    ensures |HexDump(bytes)| == 3 * |bytes| - 1
    ensures HexDump(bytes)[3 * k .. 3 * k + 2] == HexByte(bytes[k], false)
    ensures k + 1 < |bytes| ==> HexDump(bytes)[3 * k + 2] == ' '
    decreases |bytes|, 1
  {
    HexDumpLength(bytes);
    if |bytes| > 1 {
      if k == 0 {
        HexDumpFirstGroup(bytes);
      } else {
        HexDumpLaterGroup(bytes, k);
      }
    }
  }

  lemma HexDumpFirstGroup(bytes: seq<byte>)
    requires |bytes| > 1
    ensures HexDump(bytes)[..2] == HexByte(bytes[0], false) && HexDump(bytes)[2] == ' '
  {
    var digits := HexByte(bytes[0], false);
    var head, rest := digits + " ", HexDump(bytes[1..]);
    assert HexDump(bytes) == head + rest;
    assert (head + rest)[..2] == digits && (head + rest)[2] == ' ';
  }

  lemma HexDumpSplits(bytes: seq<byte>)
    requires |bytes| > 1
    ensures HexDump(bytes) == (HexByte(bytes[0], false) + " ") + HexDump(bytes[1..])
  {
  }

  lemma {:induction false} HexDumpLaterGroup(bytes: seq<byte>, k: nat)
    requires 0 < k < |bytes|
    ensures |HexDump(bytes)| == 3 * |bytes| - 1
    ensures HexDump(bytes)[3 * k .. 3 * k + 2] == HexByte(bytes[k], false)
    ensures k + 1 < |bytes| ==> HexDump(bytes)[3 * k + 2] == ' '
    decreases |bytes|, 0
  {
    var head, rest, b := HexByte(bytes[0], false) + " ", HexDump(bytes[1..]), bytes[1..];
    var g, more := HexByte(bytes[k], false), k + 1 < |bytes|;
    assert |HexDump(bytes)| == 3 * |bytes| - 1 by {
      HexDumpLength(bytes);
    }
    assert HexDump(bytes) == head + rest by {
      HexDumpSplits(bytes);
    }
    assert 3 * k - 1 <= |rest| && rest[3 * (k - 1) .. 3 * (k - 1) + 2] == g
      && (more ==> 3 * k - 1 < |rest| && rest[3 * (k - 1) + 2] == ' ') by {
      assert b[k - 1] == bytes[k];
      HexDumpAt(b, k - 1);
    }
    ShiftedByThree(HexDump(bytes), head, rest, g, k, more);
  }

  /** Three characters in front shift every group of three by one group. */
  lemma ShiftedByThree(dump: string, head: string, rest: string, g: string, k: nat, more: bool)
    requires dump == head + rest && |head| == 3 && 1 <= k && 3 * k - 1 <= |rest|
    requires rest[3 * (k - 1) .. 3 * (k - 1) + 2] == g
    requires more ==> 3 * k - 1 < |rest| && rest[3 * (k - 1) + 2] == ' '
    ensures 3 * k + 2 <= |dump| && dump[3 * k .. 3 * k + 2] == g
    ensures more ==> dump[3 * k + 2] == ' '
  {
  }

  /** Each pair of digits in the dump reads back as its byte. */
  lemma HexDumpReadsBack(bytes: seq<byte>, k: nat)
    requires k < |bytes|
    ensures 3 * k + 2 <= |HexDump(bytes)|
    ensures DigitsValue(HexDump(bytes)[3 * k .. 3 * k + 2], 16) == bytes[k]
  {
    HexDumpAt(bytes, k);
  }

  // ---- whole programs ----

  /**
   * A program that assembles: every forward reference the second pass
   * recorded names a label, and its operand slot in the output holds that
   * label's pc reduced to a byte; words keep the opcodes the second pass
   * encoded, and every source line maps to a pc no further than the end.
   */
  lemma AssembledReferencesPatched(lines: seq<string>, constants: map<string, Constant>, queue: seq<Queued>,
                                   st: Pass2, k: nat)
    requires FirstPassFrom(lines, 0, map[], []) == Ok((constants, queue))
    requires SecondPassFrom(queue, 0, InitialPass2(constants)) == Ok(st)
    requires Assemble(lines).Ok? && k < |st.unresolved|
    ensures |Assemble(lines).value.words| == |st.output|
    ensures "$" + st.unresolved[k].target in st.labels
    ensures st.unresolved[k].index < |st.output| && st.unresolved[k].slot < 3
    ensures SlotOf(Assemble(lines).value.words[st.unresolved[k].index], st.unresolved[k].slot)
      == st.labels["$" + st.unresolved[k].target] % 256
  {
    SecondPassOrdered(queue, 0, InitialPass2(constants));
    assert st.unresolved[k] in st.unresolved;
    assert Assemble(lines).value.words == PatchFrom(st.unresolved, 0, st.labels, st.output).value;
    PatchFillsReferences(st.unresolved, 0, st.labels, st.output, k);
  }

  /** An assembled program keeps the second pass's opcodes, and every line maps to a pc within the output. */
  lemma AssembledShape(lines: seq<string>, constants: map<string, Constant>, queue: seq<Queued>,
                       st: Pass2, i: nat)
    requires FirstPassFrom(lines, 0, map[], []) == Ok((constants, queue))
    requires SecondPassFrom(queue, 0, InitialPass2(constants)) == Ok(st)
    requires Assemble(lines).Ok? && i < |st.output|
    ensures i < |Assemble(lines).value.words| && Assemble(lines).value.words[i].opcode == st.output[i].opcode
    ensures forall l :: l in Assemble(lines).value.origLineToPc ==> Assemble(lines).value.origLineToPc[l] <= |st.output|
  {
    var words := PatchFrom(st.unresolved, 0, st.labels, st.output).value;
    assert Assemble(lines) == Ok(Assembled(words, HexDump(Flatten(words)), st.lineToPc));
    PatchKeepsOthers(st.unresolved, 0, st.labels, st.output, i, 0);
  }

  /** A forward reference to a label that is never defined makes the whole assembly fail. */
  lemma UndefinedLabelFails(lines: seq<string>, constants: map<string, Constant>, queue: seq<Queued>,
                            st: Pass2, k: nat)
    requires FirstPassFrom(lines, 0, map[], []) == Ok((constants, queue))
    requires SecondPassFrom(queue, 0, InitialPass2(constants)) == Ok(st)
    requires k < |st.unresolved| && "$" + st.unresolved[k].target !in st.labels
    ensures Assemble(lines).Err? && Assemble(lines).error.UndefinedLabel?
  {
    var r := PatchFrom(st.unresolved, 0, st.labels, st.output);
    assert r.Err?;
    PatchErrorIsUndefinedLabel(st.unresolved, 0, st.labels, st.output);
  }

  /** The patch step fails only with an undefined label. */
  lemma {:induction false} PatchErrorIsUndefinedLabel(unresolved: seq<Unresolved>, j: nat, labels: map<string, nat>,
                                                     output: seq<Word>)
    requires j <= |unresolved| && InRange(unresolved, output)
    ensures PatchFrom(unresolved, j, labels, output).Err? ==> PatchFrom(unresolved, j, labels, output).error.UndefinedLabel?
    decreases |unresolved| - j
  {
    if j < |unresolved| {
      var u := unresolved[j];
      assert u in unresolved;
      if "$" + u.target in labels {
        PatchErrorIsUndefinedLabel(unresolved, j + 1, labels,
          output[u.index := SetSlot(output[u.index], u.slot, labels["$" + u.target] % 256)]);
      }
    }
  }
}
