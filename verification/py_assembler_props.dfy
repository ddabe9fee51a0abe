/**
 * Properties of the command-line assembler: values are read back whole and
 * reduced only when encoded, the operand text the disassembler prints
 * reassembles, label operands encode as the label's pc, the second pass
 * emits each instruction line's word in order, and macro expansion
 * keeps plain lines, does not depend on the depth bound once it succeeds,
 * and never finishes for a macro that calls itself.
 */
module PyAssemblerProps {
  import opened Wrappers
  import opened Isa
  import opened Text
  import opened WebDisassembler
  import opened PyAssembler
  import WebProps = WebAssemblerProps

  // ---- values ----

  /** A digit of radix 16 or less is no Python space. */
  lemma DigitIsNoPySpace(c: char, radix: nat)
    requires radix <= 16 && IsDigitIn(c, radix)
    ensures !IsPySpace(c) && c != '_'
  {
  }

  /** A digit string is its own PyStrip. */
  lemma DigitsStripToThemselves(s: string, radix: nat)
    requires s != [] && radix <= 16
    requires IsDigitIn(s[0], radix) && IsDigitIn(s[|s| - 1], radix)
    ensures PyStrip(s) == s
  {
    DigitIsNoPySpace(s[0], radix);
    DigitIsNoPySpace(s[|s| - 1], radix);
    TrimKeeps(s, IsPySpace);
  }

  /** A run of digits is a valid tail after the first digit: no underscores needed. */
  lemma {:induction false} DigitsAreTail(s: string, radix: nat)
    requires radix <= 16 && forall i :: 0 <= i < |s| ==> IsDigitIn(s[i], radix)
    ensures PyDigitTail(s, radix)
    ensures WithoutUnderscores(s) == s
  {
    if s != [] {
      DigitsAreTail(s[1..], radix);
      DigitIsNoPySpace(s[0], radix);
    }
  }

  /** `int(p + h, radix)` for a two-character prefix and plain digits is the value of the digits. */
  lemma PrefixedDigitsParse(p: string, h: string, radix: nat)
    requires |p| == 2 && (radix == 2 || radix == 16)
    requires h != [] && forall i :: 0 <= i < |h| ==> IsDigitIn(h[i], radix)
    ensures PyParsePrefixed(p + h, radix) == Some(DigitsValue(h, radix))
  {
    assert (p + h)[2..] == h;
    DigitIsNoPySpace(h[0], radix);
    DigitsAreTail(h[1..], radix);
    DigitsAreTail(h, radix);
  }

  /** parse_value reads the decimal numeral of any n back as n itself, not reduced. */
  lemma DecimalReadsBack(n: nat, constants: map<string, nat>)
    requires Decimal(n) !in constants
    ensures ParseValue(Decimal(n), constants) == Ok(n)
  {
    var s := Decimal(n);
    DigitsStripToThemselves(s, 10);
    WebProps.DecimalIsDigits(n);
    assert !IsCharLiteral(s) by {
      WebProps.DecimalDigit(s[0]);
    }
    assert !StartsWith(s, "0x") && !StartsWith(s, "0b") by {
      if |s| >= 2 {
        assert s[0] != '0';
      }
    }
  }

  /** A `0x` or `0b` literal with plain digits has nothing to strip and is no character literal. */
  lemma PrefixedLiteralShape(p: string, h: string, radix: nat)
    requires p == "0x" || p == "0b"
    requires radix <= 16 && h != [] && forall i :: 0 <= i < |h| ==> IsDigitIn(h[i], radix)
    ensures PyStrip(p + h) == p + h && !IsCharLiteral(p + h)
    ensures StartsWith(p + h, "0x") <==> p == "0x"
    ensures StartsWith(p + h, "0b") <==> p == "0b"
  {
    var t := p + h;
    assert t[0] == '0' && t[1] == p[1] && t[|t| - 1] == h[|h| - 1];
    DigitIsNoPySpace(h[|h| - 1], radix);
    TrimKeeps(t, IsPySpace);
    assert t[..2] == p;
  }

  /** parse_value reads `0x` and the hexadecimal numeral of any n back as n, not reduced. */
  lemma HexReadsBack(n: nat, upper: bool, constants: map<string, nat>)
    requires "0x" + Numeral(n, 16, upper) !in constants
    ensures ParseValue("0x" + Numeral(n, 16, upper), constants) == Ok(n)
  {
    var h := Numeral(n, 16, upper);
    PrefixedLiteralShape("0x", h, 16);
    PrefixedDigitsParse("0x", h, 16);
  }

  /** parse_value reads `0b` and the binary numeral of any n back as n, not reduced. */
  lemma BinaryReadsBack(n: nat, constants: map<string, nat>)
    requires "0b" + Numeral(n, 2, false) !in constants
    ensures ParseValue("0b" + Numeral(n, 2, false), constants) == Ok(n)
  {
    var h := Numeral(n, 2, false);
    PrefixedLiteralShape("0b", h, 2);
    PrefixedDigitsParse("0b", h, 2);
  }

  /** parse_value reads a quoted character as its whole code point. */
  lemma CharLiteralReadsBack(q: char, c: char, constants: map<string, nat>)
    requires q == '\'' || q == '"'
    requires [q, c, q] !in constants
    ensures ParseValue([q, c, q], constants) == Ok(c as nat)
  {
    TrimKeeps([q, c, q], IsPySpace);
  }

  /** encode_operand is where values are reduced: a numeral of any size encodes as its value mod 256. */
  lemma OperandsAreReduced(n: nat, constants: map<string, nat>)
    requires Decimal(n) !in constants
    ensures EncodeOperand(Some(Decimal(n)), constants) == Ok(n % 256)
  {
    DecimalReadsBack(n, constants);
    WebProps.DecimalIsDigits(n);
    WebProps.DigitLedKeyIsNoRegister(Decimal(n));
  }

  // ---- operand text of the disassembler ----

  /** The `0x` literal the disassembler prints for an immediate is read back as its byte. */
  lemma HexLiteralReadsBack(v: byte, constants: map<string, nat>)
    requires HexLiteral(v) !in constants
    ensures ParseValue(HexLiteral(v), constants) == Ok(v)
  {
    var h := HexByte(v, true);
    PrefixedLiteralShape("0x", h, 16);
    PrefixedDigitsParse("0x", h, 16);
  }

  /** An immediate operand text is no register name and encodes as its byte. */
  lemma ImmediateTextEncodes(v: byte, constants: map<string, nat>)
    requires HexLiteral(v) !in constants
    ensures ImmediateFlag(HexLiteral(v))
    ensures EncodeOperand(Some(HexLiteral(v)), constants) == Ok(v)
  {
    var t := HexLiteral(v);
    assert t[0] == '0';
    WebProps.DigitLedKeyIsNoRegister(t);
    HexLiteralReadsBack(v, constants);
    ByteIsItsResidue(v);
  }

  /** The operand text the disassembler prints encodes as its value here too. */
  lemma OperandTextEncodes(v: byte, imm: bool, constants: map<string, nat>)
    requires imm ==> HexLiteral(v) !in constants
    requires !imm ==> v < 8
    ensures ImmediateFlag(OperandText(v, imm)) == imm
    ensures EncodeOperand(Some(OperandText(v, imm)), constants) == Ok(v)
  {
    if imm {
      ImmediateTextEncodes(v, constants);
    } else {
      assert OperandText(v, imm) == RegName(v);
    }
  }

  /**
   * The command-line assembler reads back the full three-operand form of a
   * browser listing: the mnemonic, the two source operand texts and the
   * destination as a register name encode to the word. The browser
   * disassembler prints this form for ALU words other than NOT.
   */
  lemma OperandTextsReassemble(w: Word, constants: map<string, nat>)
    requires w.opcode < 0x80 && OpClass(w.opcode) < 3
    requires !Imm1(w.opcode) ==> w.op1 < 8
    requires !Imm2(w.opcode) ==> w.op2 < 8
    requires w.dest < 8
    requires Imm1(w.opcode) ==> HexLiteral(w.op1) !in constants
    requires Imm2(w.opcode) ==> HexLiteral(w.op2) !in constants
    ensures MnemonicOf(OpClass(w.opcode), Subtype(w.opcode)) in Opcodes
    ensures EncodeWord(MnemonicOf(OpClass(w.opcode), Subtype(w.opcode)),
      OperandText(w.op1, Imm1(w.opcode)), OperandText(w.op2, Imm2(w.opcode)),
      OperandText(w.dest, false), constants) == Ok(w)
  {
    var c := OpClass(w.opcode);
    var m := MnemonicOf(c, Subtype(w.opcode));
    MnemonicsMatchOpcodeTable(c, Subtype(w.opcode));
    OperandTextEncodes(w.op1, Imm1(w.opcode), constants);
    OperandTextEncodes(w.op2, Imm2(w.opcode), constants);
    OperandTextEncodes(w.dest, false, constants);
    OpcodeByteOfFields(w.opcode, ClassNamed(c));
    assert EncodeOpcode(m, OperandText(w.op1, Imm1(w.opcode)), OperandText(w.op2, Imm2(w.opcode))) == w.opcode;
  }

  // ---- second pass ----

  /** A label operand is replaced by the label's pc, which encodes as that pc mod 256. */
  lemma LabelOperandEncodesPc(x: string, labels: map<string, nat>, constants: map<string, nat>)
    requires x in labels && Decimal(labels[x]) !in constants
    ensures LabelArgs([x], labels) == [Decimal(labels[x])]
    ensures EncodeOperand(Some(LabelArgs([x], labels)[0]), constants) == Ok(labels[x] % 256)
  {
    OperandsAreReduced(labels[x], constants);
  }

  /**
   * `JMP 0, 0, name`: a jump to a label is one word whose destination is
   * the label's pc mod 256, and nothing else of the second pass changes.
   */
  lemma JumpToLabel(x: string, st: Pass2)
    requires x in st.labels && Decimal(st.labels[x]) !in st.constants && "0" !in st.constants && "0" !in st.labels
    ensures AssembleInstruction("JMP", ["0", "0", x], st)
      == Ok(st.(output := st.output + [Word(EncodeOpcode("JMP", "0", "0"), 0, 0, st.labels[x] % 256)]))
  {
    var args := LabelArgs(["0", "0", x], st.labels);
    assert args == ["0", "0", Decimal(st.labels[x])];
    OperandsAreReduced(0, st.constants);
    assert Decimal(0) == "0";
    OperandsAreReduced(st.labels[x], st.constants);
  }

  /**
   * An expanded line that is one instruction under the given tables: no
   * `name:` prefix, not blank, not `LABEL`, a known mnemonic with at least
   * three operands once label operands are replaced and the short form is
   * completed, and those operands encode as `w`.
   */
  predicate InstructionWord(line: string, constants: map<string, nat>, labels: map<string, nat>, w: Word) {
    var tokens := SplitFields(PyStrip(line), IsPySpace);
    var mnemonic := ToUpperAscii(tokens[0]);
    var args := HandleShorthand(mnemonic, LabelArgs(tokens[1..], labels));
    MatchLabelPrefix(line, IsPySpace, IsPyLineTerminator).None? && PyStrip(line) != [] && tokens[0] != []
    && mnemonic != "LABEL" && mnemonic in Opcodes && |args| >= 3
    && EncodeWord(mnemonic, args[0], args[1], args[2], constants) == Ok(w)
  }

  /** An instruction line appends its word and changes nothing else. */
  lemma AssembleLineEmitsWord(line: string, st: Pass2, w: Word)
    requires InstructionWord(line, st.constants, st.labels, w)
    ensures AssembleLine(line, st) == Ok(st.(output := st.output + [w]))
  {
    AssembleLineCases(line, st);
  }

  /** Lines k onwards are instruction lines encoding, in order, as `words`. */
  predicate InstructionWords(lines: seq<string>, k: nat, constants: map<string, nat>, labels: map<string, nat>, words: seq<Word>)
    requires k <= |lines|
  {
    |words| == |lines| - k
    && forall j :: k <= j < |lines| ==> InstructionWord(lines[j], constants, labels, words[j - k])
  }

  lemma InstructionWordsHead(lines: seq<string>, k: nat, constants: map<string, nat>, labels: map<string, nat>, words: seq<Word>)
    requires k < |lines| && InstructionWords(lines, k, constants, labels, words)
    ensures words != [] && InstructionWord(lines[k], constants, labels, words[0])
  {
  }

  lemma InstructionWordsTail(lines: seq<string>, k: nat, constants: map<string, nat>, labels: map<string, nat>, words: seq<Word>)
    requires k < |lines| && InstructionWords(lines, k, constants, labels, words)
    ensures words != [] && InstructionWords(lines, k + 1, constants, labels, words[1..])
  {
    forall j | k + 1 <= j < |lines|
      ensures InstructionWord(lines[j], constants, labels, words[1..][j - (k + 1)])
    {
      assert words[1..][j - (k + 1)] == words[j - k];
    }
  }

  /** One instruction line of the second pass: its word is appended and the pass goes on. */
  lemma SecondPassStepEmits(lines: seq<string>, k: nat, constants: map<string, nat>, labels: map<string, nat>,
                            output: seq<Word>, words: seq<Word>)
    requires k < |lines| && InstructionWords(lines, k, constants, labels, words)
    ensures words != []
    ensures SecondPassFrom(lines, k, Pass2(constants, labels, output))
         == SecondPassFrom(lines, k + 1, Pass2(constants, labels, output + [words[0]]))
  {
    InstructionWordsHead(lines, k, constants, labels, words);
    AssembleLineEmitsWord(lines[k], Pass2(constants, labels, output), words[0]);
  }

  /**
   * The second pass over instruction lines emits each line's word, in order,
   * after the words already emitted, and leaves the tables alone.
   */
  lemma {:induction false} SecondPassEmitsWords(lines: seq<string>, k: nat, constants: map<string, nat>,
                                                labels: map<string, nat>, output: seq<Word>, words: seq<Word>)
    requires k <= |lines| && InstructionWords(lines, k, constants, labels, words)
    ensures SecondPassFrom(lines, k, Pass2(constants, labels, output)) == Ok(Pass2(constants, labels, output + words))
    decreases |lines| - k, 1
  {
    if k == |lines| {
      assert output + words == output;
    } else {
      SecondPassEmitsFirstWord(lines, k, constants, labels, output, words);
    }
  }

  /** The step of SecondPassEmitsWords: line k's word, then the rest by induction. */
  lemma {:induction false} SecondPassEmitsFirstWord(lines: seq<string>, k: nat, constants: map<string, nat>,
                                                    labels: map<string, nat>, output: seq<Word>, words: seq<Word>)
    requires k < |lines| && InstructionWords(lines, k, constants, labels, words)
    ensures SecondPassFrom(lines, k, Pass2(constants, labels, output)) == Ok(Pass2(constants, labels, output + words))
    decreases |lines| - k, 0
  {
    InstructionWordsTail(lines, k, constants, labels, words);
    assert output + [words[0]] + words[1..] == output + words by {
      assert [words[0]] + words[1..] == words;
    }
    SecondPassStepEmits(lines, k, constants, labels, output, words);
    SecondPassEmitsWords(lines, k + 1, constants, labels, output + [words[0]], words[1..]);
  }

  /** JMP and CALL have no short form: fewer than three operands are too few. */
  lemma JumpsNeedThreeOperands(mnemonic: string, operands: seq<string>, st: Pass2)
    requires mnemonic == "JMP" || mnemonic == "CALL"
    requires |operands| < 3
    ensures AssembleInstruction(mnemonic, operands, st) == Err(NotEnoughValues(|operands|))
  {
    assert HandleShorthand(mnemonic, LabelArgs(operands, st.labels)) == LabelArgs(operands, st.labels);
  }

  // ---- first pass ----

  /**
   * A kept line with a `name:` prefix: the name is bound to the index the
   * rest of the line is kept at, in the lines before expansion.
   */
  lemma LabelNamesItsLine(line: string, st: FirstPass)
    requires st.WellFormed() && MatchLabelPrefix(line, IsPySpace, IsPyLineTerminator).Some?
    requires BindLabelPrefixes(line, st.labels, |st.expanded|).0 != []
    ensures var name := MatchLabelPrefix(line, IsPySpace, IsPyLineTerminator).value.0;
      var r := KeepLine(line, st);
      name in r.labels && r.labels[name] < |r.expanded|
      && r.expanded[r.labels[name]] == BindLabelPrefixes(line, st.labels, |st.expanded|).0
  {
  }

  /** A cleaned source line that is neither a define nor label-prefixed. */
  predicate IsPlainSource(line: string) {
    !StartsWith(line, "define ") && MatchLabelPrefix(line, IsPySpace, IsPyLineTerminator).None?
  }

  /**
   * Without defines and label prefixes the first pass binds nothing and
   * keeps exactly the non-blank cleaned lines, in order.
   */
  lemma {:induction false} FirstPassKeepsPlainLines(lines: seq<string>, i: nat, st: FirstPass)
    requires i <= |lines| && st.WellFormed()
    requires forall k :: i <= k < |lines| ==> IsPlainSource(CleanLine(lines, k))
    ensures FirstPassFrom(lines, i, st) == Ok(st.(expanded := st.expanded + NonBlankLines(lines, i, |lines|)))
    decreases |lines| - i
  {
    if i == |lines| {
      assert st.expanded + [] == st.expanded;
    } else {
      var line := CleanLine(lines, i);
      var head := if line != [] then [line] else [];
      var st', rest := st.(expanded := st.expanded + head), NonBlankLines(lines, i + 1, |lines|);
      var all := NonBlankLines(lines, i, |lines|);
      assert st'.WellFormed() && FirstPassFrom(lines, i, st) == FirstPassFrom(lines, i + 1, st') && all == head + rest by {
        PlainSourceLineKept(lines, i, st);
      }
      assert FirstPassFrom(lines, i + 1, st') == Ok(st'.(expanded := st'.expanded + rest)) by {
        FirstPassKeepsPlainLines(lines, i + 1, st');
      }
      assert st'.expanded + rest == st.expanded + all by {
        BodyLinesAppend(st.expanded, head, rest);
      }
    }
  }

  /** The one-line step of FirstPassKeepsPlainLines. */
  lemma PlainSourceLineKept(lines: seq<string>, i: nat, st: FirstPass)
    requires i < |lines| && st.WellFormed() && IsPlainSource(CleanLine(lines, i))
    ensures var line := CleanLine(lines, i);
      var head := if line != [] then [line] else [];
      st.(expanded := st.expanded + head).WellFormed()
      && FirstPassFrom(lines, i, st) == FirstPassFrom(lines, i + 1, st.(expanded := st.expanded + head))
      && NonBlankLines(lines, i, |lines|) == head + NonBlankLines(lines, i + 1, |lines|)
  {
    var line := CleanLine(lines, i);
    if line == [] {
      assert st.expanded + [] == st.expanded;
    }
  }

  // ---- macro expansion ----

  /** `s.replace(key, value)` leaves a string without an occurrence of a non-empty key as it is. */
  lemma {:induction false} ReplaceAbsent(s: string, key: string, value: string)
    requires key != [] && forall i :: 0 <= i <= |s| ==> !StartsWith(s[i..], key)
    ensures Replace(s, key, value) == s
    decreases |s|
  {
    if s != [] {
      assert !StartsWith(s[0..], key);
      assert s[0..] == s;
      forall i | 0 <= i <= |s[1..]|
        ensures !StartsWith(s[1..][i..], key)
      {
        assert s[1..][i..] == s[i + 1..];
      }
      ReplaceAbsent(s[1..], key, value);
    }
  }

  /** A string with no separator in it is one field. */
  lemma {:induction false} OneField(s: string, space: char -> bool)
    requires s != [] && forall i :: 0 <= i < |s| ==> !IsSeparator(s[i], space)
    ensures SplitFields(s, space) == [s]
    decreases |s|
  {
    var rest := SplitFields(s[1..], space);
    assert SplitFields(s, space) == [[s[0]] + rest[0]] + rest[1..];
    if |s| == 1 {
      assert s[1..] == [] && s == [s[0]];
      assert rest == [[]];
      assert [s[0]] + rest[0] == s && rest[1..] == [];
    } else {
      OneField(s[1..], space);
      assert [s[0]] + s[1..] == s;
    }
  }

  /** The first token of a line, as expand_macros splits it. */
  function FirstToken(line: string): string {
    SplitFields(PyStrip(line), IsPySpace)[0]
  }

  /** A line with a first token that names no macro. */
  predicate IsPlainLine(line: string, macros: map<string, Macro>) {
    FirstToken(line) != [] && ToUpperAscii(FirstToken(line)) !in macros
  }

  /**
   * Lines whose first tokens name no macro are kept as they are, in order,
   * when there are no enclosing arguments.
   */
  lemma {:induction false} PlainLinesKept(lines: seq<string>, macros: map<string, Macro>, depth: nat)
    requires AllPlain(lines, macros)
    ensures ExpandLines(lines, [], macros, depth) == Ok(lines)
    decreases |lines|
  {
    if lines != [] {
      var rest := lines[1..];
      assert ExpandLine(lines[0], [], macros, depth) == Ok([lines[0]]) by {
        assert IsPlainLine(lines[0], macros);
        PlainLineKept(lines[0], macros, depth);
      }
      assert ExpandLines(rest, [], macros, depth) == Ok(rest) by {
        AllPlainTail(lines, macros);
        PlainLinesKept(rest, macros, depth);
      }
      assert [lines[0]] + rest == lines;
    }
  }

  lemma AllPlainTail(lines: seq<string>, macros: map<string, Macro>)
    requires lines != [] && AllPlain(lines, macros)
    ensures AllPlain(lines[1..], macros)
  {
    assert forall k :: 0 <= k < |lines[1..]| ==> lines[1..][k] == lines[k + 1];
  }

  /** The one-line step of PlainLinesKept. */
  lemma PlainLineKept(line: string, macros: map<string, Macro>, depth: nat)
    requires IsPlainLine(line, macros)
    ensures ExpandLine(line, [], macros, depth) == Ok([line])
  {
  }

  /** Expansion that succeeds within a depth bound gives the same lines under any larger bound. */
  lemma {:induction false} ExpandLinesDeeper(lines: seq<string>, parent: ArgMap, macros: map<string, Macro>, depth: nat)
    requires ExpandLines(lines, parent, macros, depth).Ok?
    ensures ExpandLines(lines, parent, macros, depth + 1) == ExpandLines(lines, parent, macros, depth)
    decreases depth, |lines| + 1
  {
    if lines != [] {
      ExpandLineDeeper(lines[0], parent, macros, depth);
      ExpandLinesDeeper(lines[1..], parent, macros, depth);
    }
  }

  /** The one-line half of ExpandLinesDeeper. */
  lemma {:induction false} ExpandLineDeeper(line: string, parent: ArgMap, macros: map<string, Macro>, depth: nat)
    requires ExpandLine(line, parent, macros, depth).Ok?
    ensures ExpandLine(line, parent, macros, depth + 1) == ExpandLine(line, parent, macros, depth)
    decreases depth, 1
  {
    if !IsCall(line, macros) {
      NoCallIgnoresDepth(line, parent, macros, depth);
    } else if depth == 0 {
      CallAtZeroFails(line, parent, macros);
      assert false;
    } else {
      CallDeeper(line, parent, macros, depth);
    }
  }

  /** The call case of ExpandLineDeeper: the body expands the same with one more level. */
  lemma {:induction false} CallDeeper(line: string, parent: ArgMap, macros: map<string, Macro>, depth: nat)
    requires IsCall(line, macros) && depth > 0 && ExpandLine(line, parent, macros, depth).Ok?
    ensures ExpandLine(line, parent, macros, depth + 1) == ExpandLine(line, parent, macros, depth)
    decreases depth, 0
  {
    var m, args := macros[ToUpperAscii(FirstToken(line))], CallArgs(line, macros);
    var body := SubstituteLines(m.body, args, parent);
    assert ExpandLine(line, parent, macros, depth) == ExpandLines(body, args, macros, depth - 1) by {
      CallUnfolds(line, parent, macros, depth);
    }
    assert ExpandLine(line, parent, macros, depth + 1) == ExpandLines(body, args, macros, depth) by {
      CallUnfolds(line, parent, macros, depth + 1);
    }
    BodyDeeper(ExpandLine(line, parent, macros, depth), ExpandLine(line, parent, macros, depth + 1), body, args, macros, depth);
  }

  /** Both depths of a call expand its body, one level apart. */
  lemma {:induction false} BodyDeeper(now: Result<seq<string>, PyError>, next: Result<seq<string>, PyError>,
                                      body: seq<string>, args: ArgMap, macros: map<string, Macro>, depth: nat)
    requires depth > 0 && now.Ok?
    requires now == ExpandLines(body, args, macros, depth - 1) && next == ExpandLines(body, args, macros, depth)
    ensures next == now
    decreases depth - 1, |body| + 2
  {
    ExpandLinesDeeper(body, args, macros, depth - 1);
  }

  /** A line that calls no macro expands the same way at every depth. */
  lemma NoCallIgnoresDepth(line: string, parent: ArgMap, macros: map<string, Macro>, depth: nat)
    requires !IsCall(line, macros)
    ensures ExpandLine(line, parent, macros, depth + 1) == ExpandLine(line, parent, macros, depth)
  {
  }

  /** A call with no depth left is the recursion error. */
  lemma CallAtZeroFails(line: string, parent: ArgMap, macros: map<string, Macro>)
    requires IsCall(line, macros)
    ensures ExpandLine(line, parent, macros, 0) == Err(RecursionLimit)
  {
  }

  /** Each line with the items of `d` substituted, in order. */
  function SubstituteEach(lines: seq<string>, d: ArgMap): (r: seq<string>)
    ensures |r| == |lines| && forall k :: 0 <= k < |r| ==> r[k] == SubstituteAll(lines[k], d)
  {
    if lines == [] then [] else [SubstituteAll(lines[0], d)] + SubstituteEach(lines[1..], d)
  }

  /**
   * subst_args is the call's substitution followed by the enclosing call's,
   * line by line.
   */
  lemma {:induction false} SubstituteLinesComposes(body: seq<string>, args: ArgMap, parent: ArgMap)
    ensures SubstituteLines(body, args, parent) == SubstituteEach(SubstituteEach(body, args), parent)
    decreases |body|
  {
    if body != [] {
      SubstituteLinesComposes(body[1..], args, parent);
      assert SubstituteEach(body, args)[1..] == SubstituteEach(body[1..], args);
    }
  }

  /**
   * Lines whose first tokens name no macro come out one for one, each with
   * the enclosing call's arguments substituted.
   */
  lemma {:induction false} PlainLinesSubstituted(lines: seq<string>, parent: ArgMap, macros: map<string, Macro>, depth: nat)
    requires AllPlain(lines, macros)
    ensures ExpandLines(lines, parent, macros, depth) == Ok(SubstituteEach(lines, parent))
    decreases |lines|
  {
    if lines != [] {
      assert IsPlainLine(lines[0], macros);
      assert forall k :: 0 <= k < |lines[1..]| ==> lines[1..][k] == lines[k + 1];
      PlainLinesSubstituted(lines[1..], parent, macros, depth);
    }
  }

  /** A line whose first token names a macro. */
  predicate IsCall(line: string, macros: map<string, Macro>) {
    FirstToken(line) != [] && ToUpperAscii(FirstToken(line)) in macros
  }

  /** The argument map of a call: the macro's parameters zipped with the tokens after the name. */
  function CallArgs(line: string, macros: map<string, Macro>): (args: ArgMap)
    requires IsCall(line, macros)
    ensures var m := macros[ToUpperAscii(FirstToken(line))];
      |args| <= |m.params| && |args| <= |SplitFields(PyStrip(line), IsPySpace)| - 1
  {
    var tokens := SplitFields(PyStrip(line), IsPySpace);
    var m := macros[ToUpperAscii(tokens[0])];
    var actual := tokens[1..][..if |tokens| - 1 < |m.params| then |tokens| - 1 else |m.params|];
    ArgMapOfBound(m.params, actual, []);
    ArgMapOf(m.params, actual, [])
  }

  /** dict(zip(params, actual)) has no more items than either list, beyond those of d. */
  lemma {:induction false} ArgMapOfBound(params: seq<string>, actual: seq<string>, d: ArgMap)
    ensures |ArgMapOf(params, actual, d)| <= |d| + |params| && |ArgMapOf(params, actual, d)| <= |d| + |actual|
    decreases |params|
  {
    if params != [] && actual != [] {
      ArgMapOfBound(params[1..], actual[1..], Assign(d, params[0], actual[0]));
    }
  }

  /** Every line's first token is non-empty and names no macro. */
  predicate AllPlain(lines: seq<string>, macros: map<string, Macro>) {
    forall k :: 0 <= k < |lines| ==> IsPlainLine(lines[k], macros)
  }

  /**
   * A call of a macro whose substituted body holds no further call expands to
   * that body, each line substituted once with the call's arguments and the
   * enclosing call's, then once more with the call's arguments, which
   * expand_macros passes on as the enclosing ones.
   */
  lemma CallExpandsToBody(line: string, parent: ArgMap, macros: map<string, Macro>, depth: nat)
    requires depth > 0 && IsCall(line, macros)
    requires var m := macros[ToUpperAscii(FirstToken(line))];
      AllPlain(SubstituteLines(m.body, CallArgs(line, macros), parent), macros)
    ensures var m := macros[ToUpperAscii(FirstToken(line))];
      var args := CallArgs(line, macros);
      ExpandLine(line, parent, macros, depth)
        == Ok(SubstituteEach(SubstituteEach(SubstituteEach(m.body, args), parent), args))
  {
    var m := macros[ToUpperAscii(FirstToken(line))];
    var args := CallArgs(line, macros);
    var body := SubstituteLines(m.body, args, parent);
    assert ExpandLine(line, parent, macros, depth) == ExpandLines(body, args, macros, depth - 1) by {
      CallUnfolds(line, parent, macros, depth);
    }
    assert ExpandLines(body, args, macros, depth - 1) == Ok(SubstituteEach(body, args)) by {
      PlainLinesSubstituted(body, args, macros, depth - 1);
    }
    assert body == SubstituteEach(SubstituteEach(m.body, args), parent) by {
      SubstituteLinesComposes(m.body, args, parent);
    }
  }

  /** The call step of ExpandLine, in terms of CallArgs. */
  lemma CallUnfolds(line: string, parent: ArgMap, macros: map<string, Macro>, depth: nat)
    requires depth > 0 && IsCall(line, macros)
    ensures var m := macros[ToUpperAscii(FirstToken(line))];
      var args := CallArgs(line, macros);
      ExpandLine(line, parent, macros, depth) == ExpandLines(SubstituteLines(m.body, args, parent), args, macros, depth - 1)
  {
  }

  /**
   * `s.replace(key, value)` replaces the first occurrence of a non-empty key
   * and goes on after it.
   */
  lemma {:induction false} ReplaceFirstOccurrence(a: string, key: string, b: string, value: string)
    requires key != [] && forall i :: 0 <= i < |a| ==> !StartsWith((a + key + b)[i..], key)
    ensures Replace(a + key + b, key, value) == a + value + Replace(b, key, value)
    decreases |a|, 1
  {
    if a == [] {
      assert a + key + b == key + b && a + value == value;
      ReplaceAtKey(key, b, value);
    } else {
      ReplaceAfterFirst(a, key, b, value);
    }
  }

  /** The step of ReplaceFirstOccurrence: the first character of a is kept. */
  lemma {:induction false} ReplaceAfterFirst(a: string, key: string, b: string, value: string)
    requires a != [] && key != [] && forall i :: 0 <= i < |a| ==> !StartsWith((a + key + b)[i..], key)
    ensures Replace(a + key + b, key, value) == a + value + Replace(b, key, value)
    decreases |a|, 0
  {
    var r, a' := Replace(b, key, value), a[1..];
    var tail := Replace(a' + key + b, key, value);
    assert Replace(a + key + b, key, value) == [a[0]] + tail by {
      assert !StartsWith((a + key + b)[0..], key);
      ReplaceHead(a, key, b, value);
    }
    assert tail == a' + value + r by {
      NoKeyInTail(a, key, b);
      ReplaceFirstOccurrence(a', key, b, value);
    }
    ConsAppend(a, value, r);
  }

  lemma ConsAppend(a: string, v: string, r: string)
    requires a != []
    ensures [a[0]] + (a[1..] + v + r) == a + v + r
  {
    assert a == [a[0]] + a[1..];
  }

  lemma ReplaceHead(a: string, key: string, b: string, value: string)
    requires a != [] && key != [] && !StartsWith((a + key + b)[0..], key)
    ensures Replace(a + key + b, key, value) == [a[0]] + Replace(a[1..] + key + b, key, value)
  {
    var s := a + key + b;
    assert s[0..] == s;
    ReplaceStep(s, key, value);
    assert s[0] == a[0] && s[1..] == a[1..] + key + b;
  }

  lemma NoKeyInTail(a: string, key: string, b: string)
    requires a != [] && forall i :: 0 <= i < |a| ==> !StartsWith((a + key + b)[i..], key)
    ensures forall i :: 0 <= i < |a[1..]| ==> !StartsWith((a[1..] + key + b)[i..], key)
  {
    var s := a + key + b;
    forall i | 0 <= i < |a[1..]|
      ensures !StartsWith((a[1..] + key + b)[i..], key)
    {
      assert (a[1..] + key + b)[i..] == s[i + 1..];
    }
  }

  /** At an occurrence of a non-empty key, replace emits the value and skips the key. */
  lemma ReplaceAtKey(key: string, b: string, value: string)
    requires key != []
    ensures Replace(key + b, key, value) == value + Replace(b, key, value)
  {
    assert StartsWith(key + b, key);
    assert (key + b)[|key|..] == b;
  }

  /** Where a non-empty key does not start, replace keeps the first character. */
  lemma ReplaceStep(s: string, key: string, value: string)
    requires key != [] && s != [] && !StartsWith(s, key)
    ensures Replace(s, key, value) == [s[0]] + Replace(s[1..], key, value)
  {
  }

  /**
   * A macro whose body is one call of itself, with no parameters, never
   * finishes expanding: whatever the depth bound, the result is the
   * recursion error.
   */
  lemma {:induction false} SelfCallNeverEnds(name: string, macros: map<string, Macro>, depth: nat)
    requires name != [] && forall i :: 0 <= i < |name| ==> IsWordChar(name[i])
    requires ToUpperAscii(name) in macros && macros[ToUpperAscii(name)] == Macro([], [name])
    ensures ExpandLines([name], [], macros, depth) == Err(RecursionLimit)
    decreases depth
  {
    TrimKeeps(name, IsPySpace);
    OneField(name, IsPySpace);
    assert FirstToken(name) == name;
    if depth > 0 {
      SelfCallNeverEnds(name, macros, depth - 1);
      assert SubstituteLines([name], [], []) == [name];
    }
  }
}
