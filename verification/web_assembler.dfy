/**
 * The browser assembler (web/src/assembler.js): source lines to instruction
 * words, a hexadecimal dump and a map from source line to program counter.
 *
 * Operand slots hold JavaScript values, and the assembler's behaviour
 * depends on which kind: a token string, a number (a numeric constant put in
 * the slot), or undefined (a missing operand). `JsValue` keeps that
 * distinction, and `KeyOf` is the string such a value becomes when it is used
 * as a property key (`x in table`).
 */
module WebAssembler {
  import opened Wrappers
  import opened Isa
  import opened Text

  datatype JsValue = Str(s: string) | Num(n: nat) | Undefined

  /** A constant is a register name (a `define` whose body is a register) or a number. */
  datatype Constant = Alias(name: RegisterName) | Number(n: nat)

  /** What a value lookup or an encoding step can throw. */
  datatype ValueError =
    | TypeError             // a string method called on undefined or on a number
    | UnknownValue(text: string)
    | UppercaseRegister(name: string)

  /** The second-pass failures, all reported as "Assembly error on line N". */
  datatype LineFault =
    | LabelWithoutName      // `LABEL` alone: reading tokens[1] throws
    | UnknownMnemonic(mnemonic: string)
    | Encoding(cause: ValueError)

  datatype AsmError =
    | ConstantError(line: nat, cause: ValueError)
    | LineError(line: nat, fault: LineFault)
    | UndefinedLabel(name: string, index: nat)

  /** The property key a value converts to. */
  function KeyOf(v: JsValue): string {
    match v
    case Str(s) => s
    case Num(n) => Decimal(n)
    case Undefined => "undefined"
  }

  predicate Truthy(v: JsValue) {
    match v
    case Str(s) => s != []
    case Num(n) => n != 0
    case Undefined => false
  }

  /** The pattern `^R[0-7]$`. */
  predicate IsUppercaseRegisterName(s: string) {
    |s| == 2 && s[0] == 'R' && '0' <= s[1] <= '7'
  }

  /**
   * isRegister: `R0`..`R7` throw a guidance error; otherwise a value is a
   * register iff its key is one of the eleven names of the register table.
   */
  function IsRegister(v: JsValue): (r: Result<bool, ValueError>)
    ensures r.Err? <==> IsUppercaseRegisterName(KeyOf(v))
    ensures r.Err? ==> r.error == UppercaseRegister(KeyOf(v))
    ensures r == Ok(true) <==> KeyOf(v) in Registers
  {
    var key := KeyOf(v);
    if IsUppercaseRegisterName(key) then Err(UppercaseRegister(key)) else Ok(key in Registers)
  }

  predicate IsQuote(c: char) {
    c == '\'' || c == '"'
  }

  /**
   * A JavaScript string is a sequence of UTF-16 code units, and the pattern
   * `^['"](.{1})['"]$` (no `u` flag) takes one code unit between the quotes.
   * A character here is a Unicode scalar value, which is one code unit
   * exactly when it is below 0x10000; a character above that is two code
   * units and does not match.
   */
  const CodeUnitLimit := 0x10000

  /** The pattern `^['"](.{1})['"]$`: either quote on either side of one code unit. */
  predicate IsCharLiteral(t: string) {
    |t| == 3 && IsQuote(t[0]) && IsQuote(t[2]) && !IsJsLineTerminator(t[1]) && (t[1] as int) < CodeUnitLimit
  }

  predicate IsDecimalLiteral(t: string) {
    t != [] && AllDigits(t)
  }

  /** `parseInt(digits, radix) & 0xff`, where NaN becomes 0 and negatives wrap. */
  function ParseIntByte(digits: string, radix: nat): byte
    requires radix == 2 || radix == 16
  {
    match JsParseInt(digits, radix)
    case None => 0
    case Some(n) => n % 256
  }

  /**
   * parseValue: after trimming, try a constant, a quoted character, `0x`
   * hexadecimal, `0b` binary and a decimal numeral, in that order; each result
   * is reduced to a byte. Only a string can be trimmed.
   */
  function ParseValue(v: JsValue, constants: map<string, Constant>): (r: Result<byte, ValueError>)
    ensures !v.Str? ==> r == Err(TypeError)
    ensures v.Str? ==> (r.Err? <==>
      var t := JsTrim(v.s);
      t !in constants && !IsCharLiteral(t) && !StartsWith(t, "0x") && !StartsWith(t, "0b") && !IsDecimalLiteral(t))
    ensures v.Str? && r.Err? ==> r.error == UnknownValue(JsTrim(v.s))
  {
    if !v.Str? then Err(TypeError)
    else
      var t := JsTrim(v.s);
      if t in constants then
        match constants[t]
        case Alias(name) => Ok(Registers[name])
        case Number(n) => Ok(n % 256)
      else if IsCharLiteral(t) then Ok(t[1] as int % 256)
      else if StartsWith(t, "0x") then Ok(ParseIntByte(t[2..], 16))
      else if StartsWith(t, "0b") then Ok(ParseIntByte(t[2..], 2))
      else if IsDecimalLiteral(t) then Ok(DigitsValue(t, 10) % 256)
      else Err(UnknownValue(t))
  }

  /** The immediate flag of an operand: set iff it is truthy and not a register. */
  function ImmediateFlag(v: JsValue): (r: Result<bool, ValueError>)
    ensures !Truthy(v) ==> r == Ok(false)
    ensures Truthy(v) && !IsUppercaseRegisterName(KeyOf(v)) ==> r == Ok(KeyOf(v) !in Registers)
  {
    if !Truthy(v) then Ok(false)
    else
      var isReg :- IsRegister(v);
      Ok(!isReg)
  }

  /** encodeOpcode: (imm1 << 6) | (imm2 << 5) | (class << 3) | subtype. */
  function EncodeOpcode(mnemonic: string, op1: JsValue, op2: JsValue): (r: Result<byte, ValueError>)
    requires mnemonic in Opcodes
    ensures r.Ok? ==> (r.value < 0x80
      && OpClass(r.value) == ClassBits(Opcodes[mnemonic].0) && Subtype(r.value) == Opcodes[mnemonic].1
      && ImmediateFlag(op1) == Ok(Imm1(r.value)) && ImmediateFlag(op2) == Ok(Imm2(r.value)))
    ensures r.Err? <==> ImmediateFlag(op1).Err? || ImmediateFlag(op2).Err?
  {
    var imm1 :- ImmediateFlag(op1);
    var imm2 :- ImmediateFlag(op2);
    Ok(OpcodeByte(imm1, imm2, Opcodes[mnemonic].0, Opcodes[mnemonic].1))
  }

  /** encodeOperand: a falsy operand is 0, a register its index, anything else goes through parseValue. */
  function EncodeOperand(v: JsValue, constants: map<string, Constant>): (r: Result<byte, ValueError>)
    ensures !Truthy(v) ==> r == Ok(0)
    ensures Truthy(v) && KeyOf(v) in Registers ==> r == Ok(Registers[KeyOf(v)])
    ensures Truthy(v) && !v.Str? ==> r == Err(TypeError)
    ensures Truthy(v) && IsUppercaseRegisterName(KeyOf(v)) ==> r == Err(UppercaseRegister(KeyOf(v)))
    ensures Truthy(v) && !IsUppercaseRegisterName(KeyOf(v)) && KeyOf(v) !in Registers ==> r == ParseValue(v, constants)
  {
    if !Truthy(v) then Ok(0)
    else
      var isReg :- IsRegister(v);
      if isReg then Ok(Registers[KeyOf(v)]) else ParseValue(v, constants)
  }

  /**
   * handleShorthand: fills the operand list of the short forms (a new list;
   * the tokens are not changed). A full three-operand list is left as it is,
   * except for HCF, whose operands are always zeros.
   */
  function HandleShorthand(op: string, args: seq<string>): (r: seq<string>)
    ensures |args| == 3 && op != "HCF" ==> r == args
    ensures op == "HCF" ==> r == ["0", "0", "0"]
    ensures |args| == 1 && (op == "POP" || op == "JMP") ==> r == ["0", "0", args[0]]
    ensures |args| == 1 && (op == "PUSH" || op == "CALL" || op == "WRT") ==> r == [args[0], "0", "0"]
    ensures |args| == 2 && op == "MOV" ==> r == [args[0], "0", args[1]]
    ensures |args| == 2 && op == "WRT" ==> r == args + ["0"]
  {
    if op == "MOV" && |args| == 2 then [args[0], "0", args[1]]
    else if op == "HCF" then ["0", "0", "0"]
    else if op == "WRT" && |args| == 1 then args + ["0", "0"]
    else if op == "WRT" && |args| == 2 then args + ["0"]
    else if op == "PUSH" && |args| == 1 then args + ["0", "0"]
    else if op == "POP" && |args| == 1 then ["0", "0", args[0]]
    else if op == "JMP" && |args| == 1 then ["0", "0", args[0]]
    else if op == "CALL" && |args| == 1 then args + ["0", "0"]
    else args
  }

  // ---- first pass: constants ----

  datatype Queued = Queued(line: string, origLine: nat)

  /**
   * The pattern `^define\s+(\w+)\s*(.*)?`: the constant's name and its body,
   * None when the optional body group does not take part (nothing follows the
   * name but space).
   */
  function MatchDefine(line: string): (r: Option<(string, Option<string>)>)
    ensures r.Some? ==> StartsWith(line, "define") && r.value.0 != []
    ensures r.Some? && r.value.1.Some? ==> r.value.1.value != []
  {
    if !StartsWith(line, "define") then None
    else
      var afterKeyword := line[6..];
      var afterSpace := TrimStart(afterKeyword, IsJsSpace);
      var n := WordPrefixLength(afterSpace);
      if |afterSpace| == |afterKeyword| || n == 0 then None
      else
        var body := RestOfLine(TrimStart(afterSpace[n..], IsJsSpace), IsJsLineTerminator);
        Some((afterSpace[..n], if body == [] then None else Some(body)))
  }

  /**
   * What the define pattern captures: a match needs `define`, at least one
   * space and a word character; the name is the whole run of word characters
   * after the space, and the body is the rest of the line after the space
   * that follows the name, cut at a line terminator (None when empty).
   */
  lemma MatchDefineCaptures(line: string)
    ensures MatchDefine(line).None? <==> (!StartsWith(line, "define") || |TrimStart(line[6..], IsJsSpace)| == |line| - 6
                                         || WordPrefixLength(TrimStart(line[6..], IsJsSpace)) == 0)
    ensures MatchDefine(line).Some? ==> var (name, body) := MatchDefine(line).value;
      var afterSpace := TrimStart(line[6..], IsJsSpace);
      var afterName := TrimStart(afterSpace[|name|..], IsJsSpace);
      var text := if body.Some? then body.value else [];
      StartsWith(afterSpace, name) && |name| == WordPrefixLength(afterSpace)
      && StartsWith(afterName, text) && (forall i :: 0 <= i < |text| ==> !IsJsLineTerminator(text[i]))
      && (|text| < |afterName| ==> IsJsLineTerminator(afterName[|text|]))
  {
  }

  /**
   * The value a `define` records: the trimmed body when it is a register
   * name, otherwise parseValue of the body (which throws when there is none).
   */
  function DefineValue(body: Option<string>, constants: map<string, Constant>): (r: Result<Constant, ValueError>)
    ensures body.None? ==> r == Err(TypeError)
    ensures body.Some? && JsTrim(body.value) in Registers ==> r == Ok(Alias(JsTrim(body.value)))
    ensures body.Some? && IsUppercaseRegisterName(JsTrim(body.value)) ==> r == Err(UppercaseRegister(JsTrim(body.value)))
    ensures body.Some? && !IsUppercaseRegisterName(JsTrim(body.value)) && JsTrim(body.value) !in Registers ==>
      (r.Ok? <==> ParseValue(Str(body.value), constants).Ok?)
      && (r.Ok? ==> r.value == Number(ParseValue(Str(body.value), constants).value))
      && (r.Err? ==> r.error == ParseValue(Str(body.value), constants).error)
  {
    match body
    case None => Err(TypeError)
    case Some(text) =>
      var isReg :- IsRegister(Str(JsTrim(text)));
      if isReg then Ok(Alias(JsTrim(text)))
      else
        var v :- ParseValue(Str(text), constants);
        Ok(Number(v))
  }

  /** Line i of the first pass: with comment and surrounding space removed. */
  function CleanLine(lines: seq<string>, i: nat): string
    requires i < |lines|
  {
    JsTrim(BeforeSemicolon(lines[i]))
  }

  /**
   * Line i of the first pass: a blank line is dropped, a `define` line sets a
   * constant, every other line is queued with its index.
   */
  function FirstPassLine(line: string, i: nat, constants: map<string, Constant>, queue: seq<Queued>)
    : (r: Result<(map<string, Constant>, seq<Queued>), AsmError>)
    ensures line == [] ==> r == Ok((constants, queue))
    ensures line != [] && MatchDefine(line).None? ==> r == Ok((constants, queue + [Queued(line, i)]))
    ensures line != [] && MatchDefine(line).Some? ==>
      var (name, body) := MatchDefine(line).value;
      (r.Err? <==> DefineValue(body, constants).Err?)
      && (r.Err? ==> r.error == ConstantError(i + 1, DefineValue(body, constants).error))
      && (r.Ok? ==> r.value == (constants[name := DefineValue(body, constants).value], queue))
  {
    if line == [] then Ok((constants, queue))
    else match MatchDefine(line)
      case Some((name, body)) =>
        (match DefineValue(body, constants)
         case Err(e) => Err(ConstantError(i + 1, e))
         case Ok(c) => Ok((constants[name := c], queue)))
      case None => Ok((constants, queue + [Queued(line, i)]))
  }

  /** The first pass from line i on. */
  function FirstPassFrom(lines: seq<string>, i: nat, constants: map<string, Constant>, queue: seq<Queued>)
    : Result<(map<string, Constant>, seq<Queued>), AsmError>
    requires i <= |lines|
    decreases |lines| - i
  {
    if i == |lines| then Ok((constants, queue))
    else
      var (constants', queue') :- FirstPassLine(CleanLine(lines, i), i, constants, queue);
      FirstPassFrom(lines, i + 1, constants', queue')
  }

  /** A queue entry holds its line cleaned, and that line is neither blank nor a define. */
  predicate IsQueuedLine(lines: seq<string>, e: Queued) {
    e.origLine < |lines| && e.line == CleanLine(lines, e.origLine) && Queues(e.line)
  }

  /**
   * The lines the first pass queues from line i on, whatever the constants:
   * each non-blank line that is not a define, cleaned, with its index.
   */
  function QueuedFrom(lines: seq<string>, i: nat): (q: seq<Queued>)
    requires i <= |lines|
    ensures forall k :: 0 <= k < |q| ==> i <= q[k].origLine && IsQueuedLine(lines, q[k])
    ensures forall a, b :: 0 <= a < b < |q| ==> q[a].origLine < q[b].origLine
    decreases |lines| - i
  {
    if i == |lines| then []
    else
      var rest := QueuedFrom(lines, i + 1);
      if Queues(CleanLine(lines, i)) then
        var e := Queued(CleanLine(lines, i), i);
        assert IsQueuedLine(lines, e);
        ConsInOrder(e, rest);
        [e] + rest
      else rest
  }

  /** The first pass queues a cleaned line exactly when it is neither blank nor a define. */
  predicate Queues(line: string) {
    line != [] && MatchDefine(line).None?
  }

  lemma ConsInOrder(e: Queued, rest: seq<Queued>)
    requires forall k :: 0 <= k < |rest| ==> e.origLine < rest[k].origLine
    requires forall a, b :: 0 <= a < b < |rest| ==> rest[a].origLine < rest[b].origLine
    ensures var q := [e] + rest;
      forall a, b :: 0 <= a < b < |q| ==> q[a].origLine < q[b].origLine
  {
  }

  // ---- second pass: encoding ----

  /** A forward reference: instruction index, operand slot (0-2) and label name without the `$`. */
  datatype Unresolved = Unresolved(index: nat, slot: nat, target: string)

  datatype Pass2 = Pass2(
    constants: map<string, Constant>,
    labels: map<string, nat>,
    pc: nat,
    output: seq<Word>,
    unresolved: seq<Unresolved>,
    lineToPc: map<nat, nat>)
  {
    /** pc counts the words emitted, and every forward reference names an emitted word's operand slot. */
    predicate WellFormed() {
      pc == |output|
      && (forall u :: u in unresolved ==> u.index < |output| && u.slot < 3)
      && (forall l :: l in lineToPc ==> lineToPc[l] <= pc)
    }
  }

  /** The `name:` prefixes removed (no label is recorded for them). */
  function StripLabels(line: string): (r: string)
    ensures |r| <= |line|
    ensures MatchLabelPrefix(r, IsJsSpace, IsJsLineTerminator).None?
    ensures MatchLabelPrefix(line, IsJsSpace, IsJsLineTerminator).None? ==> r == line
    decreases |line|
  {
    match MatchLabelPrefix(line, IsJsSpace, IsJsLineTerminator)
    case None => line
    case Some((_, rest)) => StripLabels(rest)
  }

  /** `.replace(/:$/, "")`: one trailing colon removed. */
  function DropTrailingColon(s: string): string {
    if s != [] && s[|s| - 1] == ':' then s[..|s| - 1] else s
  }

  function ArgAt(args: seq<string>, i: nat): JsValue {
    if i < |args| then Str(args[i]) else Undefined
  }

  function ConstantValue(c: Constant): JsValue {
    match c
    case Alias(name) => Str(name)
    case Number(n) => Num(n)
  }

  /**
   * One operand slot: a known label becomes its pc as a decimal string; a
   * `$name` not yet known becomes "0" and a pending reference; then a value
   * naming a constant is replaced by the constant.
   */
  function ResolveSlot(v: JsValue, labels: map<string, nat>, constants: map<string, Constant>)
    : (r: (JsValue, Option<string>))
    ensures r.1.Some? <==> KeyOf(v) !in labels && v.Str? && StartsWith(v.s, "$")
    ensures r.1.Some? ==> "$" + r.1.value == v.s
  {
    var (labelled, pending) :=
      if KeyOf(v) in labels then (Str(Decimal(labels[KeyOf(v)])), None)
      else if v.Str? && StartsWith(v.s, "$") then (Str("0"), Some(v.s[1..]))
      else (v, None);
    var resolved := if KeyOf(labelled) in constants then ConstantValue(constants[KeyOf(labelled)]) else labelled;
    (resolved, pending)
  }

  /** Slots i..2 of an instruction resolved, forward references appended in slot order. */
  function ResolveSlots(slots: seq<JsValue>, i: nat, st: Pass2): (r: (seq<JsValue>, seq<Unresolved>))
    requires |slots| == 3 && i <= 3
    ensures |r.0| == 3
    ensures |r.1| >= |st.unresolved| && r.1[..|st.unresolved|] == st.unresolved
    ensures forall k :: |st.unresolved| <= k < |r.1| ==> r.1[k].index == |st.output| && i <= r.1[k].slot < 3
    decreases 3 - i
  {
    if i == 3 then (slots, st.unresolved)
    else
      var (v, pending) := ResolveSlot(slots[i], st.labels, st.constants);
      var unresolved := if pending.Some? then st.unresolved + [Unresolved(|st.output|, i, pending.value)] else st.unresolved;
      var r := ResolveSlots(slots[i := v], i + 1, st.(unresolved := unresolved));
      ExtendReferences(r.1, unresolved, st.unresolved, |st.output|, i);
      r
  }

  /**
   * References c, then at most one for slot i, then any number for later
   * slots, all of instruction `index`: everything after c is of that
   * instruction and of slot i or later.
   */
  lemma ExtendReferences(a: seq<Unresolved>, b: seq<Unresolved>, c: seq<Unresolved>, index: nat, i: nat)
    requires |a| >= |b| >= |c| && a[..|b|] == b && b[..|c|] == c
    requires |b| <= |c| + 1 && (|b| == |c| + 1 ==> b[|c|].index == index && b[|c|].slot == i)
    requires forall k :: |b| <= k < |a| ==> a[k].index == index && i < a[k].slot < 3
    requires i < 3
    ensures a[..|c|] == c
    ensures forall k :: |c| <= k < |a| ==> a[k].index == index && i <= a[k].slot < 3
  {
    assert a[..|c|] == a[..|b|][..|c|];
    if |b| == |c| + 1 {
      assert a[|c|] == a[..|b|][|c|];
    }
  }

  /** The four bytes of an instruction, encoded in the order the assembler does. */
  function EncodeWord(mnemonic: string, op1: JsValue, op2: JsValue, dest: JsValue, constants: map<string, Constant>)
    : (r: Result<Word, ValueError>)
    requires mnemonic in Opcodes
    ensures r.Ok? ==> (EncodeOpcode(mnemonic, op1, op2) == Ok(r.value.opcode)
      && EncodeOperand(op1, constants) == Ok(r.value.op1)
      && EncodeOperand(op2, constants) == Ok(r.value.op2)
      && EncodeOperand(dest, constants) == Ok(r.value.dest))
    ensures r.Err? <==> (EncodeOpcode(mnemonic, op1, op2).Err? || EncodeOperand(op1, constants).Err?
      || EncodeOperand(op2, constants).Err? || EncodeOperand(dest, constants).Err?)
  {
    var b1 :- EncodeOpcode(mnemonic, op1, op2);
    var b2 :- EncodeOperand(op1, constants);
    var b3 :- EncodeOperand(op2, constants);
    var b4 :- EncodeOperand(dest, constants);
    Ok(Word(b1, b2, b3, b4))
  }

  /**
   * One queued line of the second pass: its label prefixes are removed (no
   * label is recorded for them); a line left blank maps to the current pc.
   */
  function AssembleLine(q: Queued, st: Pass2): (r: Result<Pass2, AsmError>)
    requires st.WellFormed()
    ensures r.Ok? ==> r.value.WellFormed()
  {
    var line := StripLabels(q.line);
    if JsTrim(line) == [] then Ok(MapLineToPc(q.origLine, st))
    else AssembleTokens(q.origLine, line, st)
  }

  /** A line that assembles to nothing maps to the pc of the next instruction. */
  function MapLineToPc(origLine: nat, st: Pass2): (r: Pass2)
    requires st.WellFormed()
    ensures r.WellFormed()
    ensures r.pc == st.pc && r.output == st.output && r.labels == st.labels
    ensures r.lineToPc == st.lineToPc[origLine := st.pc]
  {
    st.(lineToPc := st.lineToPc[origLine := st.pc])
  }

  /**
   * A non-blank line split into tokens: `LABEL x` binds x as a label and as a
   * constant to pc; any other first token is an instruction mnemonic.
   */
  function AssembleTokens(origLine: nat, line: string, st: Pass2): (r: Result<Pass2, AsmError>)
    requires st.WellFormed()
    ensures r.Ok? ==> r.value.WellFormed()
  {
    var tokens := SplitFields(JsTrim(line), IsJsSpace);
    var mnemonic := ToUpperAscii(tokens[0]);
    if mnemonic == "LABEL" then
      if |tokens| < 2 then Err(LineError(origLine + 1, LabelWithoutName))
      else Ok(BindLabel(DropTrailingColon(tokens[1]), st))
    else AssembleInstruction(origLine, mnemonic, tokens[1..], st)
  }

  /** `LABEL name`: the name becomes a label and a numeric constant, both pc; no word, no line entry. */
  function BindLabel(name: string, st: Pass2): (r: Pass2)
    requires st.WellFormed()
    ensures r.WellFormed()
    ensures r.pc == st.pc && r.output == st.output && r.lineToPc == st.lineToPc
    ensures r.labels == st.labels[name := st.pc]
  {
    st.(labels := st.labels[name := st.pc], constants := st.constants[name := Number(st.pc)])
  }

  /**
   * An instruction line: its operands completed, labels and constants
   * substituted, then encoded into the next word, whose pc the line maps to.
   */
  function AssembleInstruction(origLine: nat, mnemonic: string, operands: seq<string>, st: Pass2)
    : (r: Result<Pass2, AsmError>)
    requires st.WellFormed()
    ensures r.Ok? ==> r.value.WellFormed()
    ensures r.Ok? ==> (|r.value.output| == |st.output| + 1 && r.value.output[..|st.output|] == st.output
      && r.value.lineToPc == st.lineToPc[origLine := st.pc] && r.value.labels == st.labels)
    ensures mnemonic !in Opcodes ==> r == Err(LineError(origLine + 1, UnknownMnemonic(mnemonic)))
  {
    var args := HandleShorthand(mnemonic, operands);
    var (slots, unresolved) := ResolveSlots([ArgAt(args, 0), ArgAt(args, 1), ArgAt(args, 2)], 0, st);
    if mnemonic !in Opcodes then Err(LineError(origLine + 1, UnknownMnemonic(mnemonic)))
    else match EncodeWord(mnemonic, slots[0], slots[1], slots[2], st.constants)
      case Err(e) => Err(LineError(origLine + 1, Encoding(e)))
      case Ok(w) =>
        Ok(st.(output := st.output + [w], unresolved := unresolved,
               lineToPc := st.lineToPc[origLine := st.pc], pc := st.pc + 1))
  }

  function SecondPassFrom(queue: seq<Queued>, k: nat, st: Pass2): (r: Result<Pass2, AsmError>)
    requires k <= |queue| && st.WellFormed()
    ensures r.Ok? ==> r.value.WellFormed()
    decreases |queue| - k
  {
    if k == |queue| then Ok(st)
    else
      var next :- AssembleLine(queue[k], st);
      SecondPassFrom(queue, k + 1, next)
  }

  // ---- patching and output ----

  function SetSlot(w: Word, slot: nat, b: byte): Word
    requires slot < 3
  {
    if slot == 0 then w.(op1 := b) else if slot == 1 then w.(op2 := b) else w.(dest := b)
  }

  /**
   * The patch step from entry j: every forward reference gets its label's pc
   * (looked up with the `$`) reduced to a byte; an unknown label stops it.
   */
  function PatchFrom(unresolved: seq<Unresolved>, j: nat, labels: map<string, nat>, output: seq<Word>)
    : (r: Result<seq<Word>, AsmError>)
    requires j <= |unresolved|
    requires forall u :: u in unresolved ==> u.index < |output| && u.slot < 3
    ensures r.Ok? ==> |r.value| == |output|
    ensures r.Err? <==> exists k :: j <= k < |unresolved| && "$" + unresolved[k].target !in labels
    decreases |unresolved| - j
  {
    if j == |unresolved| then Ok(output)
    else
      var u := unresolved[j];
      if "$" + u.target !in labels then Err(UndefinedLabel(u.target, u.index))
      else PatchFrom(unresolved, j + 1, labels, output[u.index := SetSlot(output[u.index], u.slot, labels["$" + u.target] % 256)])
  }

  function Flatten(words: seq<Word>): (bytes: seq<byte>)
    ensures |bytes| == 4 * |words|
  {
    if words == [] then []
    else [words[0].opcode, words[0].op1, words[0].op2, words[0].dest] + Flatten(words[1..])
  }

  /** `bytes.map(b => b.toString(16).padStart(2, "0")).join(" ")` */
  function HexDump(bytes: seq<byte>): string {
    if bytes == [] then []
    else if |bytes| == 1 then HexByte(bytes[0], false)
    else HexByte(bytes[0], false) + " " + HexDump(bytes[1..])
  }

  datatype Assembled = Assembled(words: seq<Word>, hex: string, origLineToPc: map<nat, nat>)

  function InitialPass2(constants: map<string, Constant>): (st: Pass2)
    ensures st.WellFormed()
  {
    Pass2(constants, map[], 0, [], [], map[])
  }

  /** assembleFromLines, all or nothing: the first error is the result. */
  function Assemble(lines: seq<string>): Result<Assembled, AsmError> {
    var (constants, queue) :- FirstPassFrom(lines, 0, map[], []);
    var st :- SecondPassFrom(queue, 0, InitialPass2(constants));
    var words :- PatchFrom(st.unresolved, 0, st.labels, st.output);
    Ok(Assembled(words, HexDump(Flatten(words)), st.lineToPc))
  }

  /** The first pass as a loop over the lines. */
  method CollectConstants(lines: seq<string>) returns (r: Result<(map<string, Constant>, seq<Queued>), AsmError>)
    ensures r == FirstPassFrom(lines, 0, map[], [])
  {
    var constants: map<string, Constant> := map[];
    var expanded: seq<Queued> := [];
    var i := 0;
    while i < |lines|
      invariant i <= |lines|
      invariant FirstPassFrom(lines, 0, map[], []) == FirstPassFrom(lines, i, constants, expanded)
    {
      var line := CleanLine(lines, i);
      ghost var before := (constants, expanded);
      if line != [] {
        var defineMatch := MatchDefine(line);
        if defineMatch.Some? {
          var (name, body) := defineMatch.value;
          var value := DefineValue(body, constants);
          if value.Err? {
            assert FirstPassLine(line, i, before.0, before.1) == Err(ConstantError(i + 1, value.error));
            return Err(ConstantError(i + 1, value.error));
          }
          constants := constants[name := value.value];
        } else {
          expanded := expanded + [Queued(line, i)];
        }
      }
      assert FirstPassLine(line, i, before.0, before.1) == Ok((constants, expanded));
      i := i + 1;
    }
    return Ok((constants, expanded));
  }

  /** The `while (line.match(/^(\w+):\s*(.*)/))` loop. */
  method StripLabelPrefixes(line: string) returns (rest: string)
    ensures rest == StripLabels(line)
    ensures MatchLabelPrefix(rest, IsJsSpace, IsJsLineTerminator).None?
  {
    rest := line;
    while MatchLabelPrefix(rest, IsJsSpace, IsJsLineTerminator).Some?
      invariant StripLabels(rest) == StripLabels(line)
      decreases |rest|
    {
      rest := MatchLabelPrefix(rest, IsJsSpace, IsJsLineTerminator).value.1;
    }
  }

  /** The loop over the three operand slots of one instruction. */
  method ResolveOperands(given: seq<JsValue>, st: Pass2) returns (slots: seq<JsValue>, unresolved: seq<Unresolved>)
    requires |given| == 3
    ensures (slots, unresolved) == ResolveSlots(given, 0, st)
  {
    slots := given;
    unresolved := st.unresolved;
    for slot := 0 to 3
      invariant |slots| == 3
      invariant ResolveSlots(given, 0, st) == ResolveSlots(slots, slot, st.(unresolved := unresolved))
    {
      var v := slots[slot];
      if KeyOf(v) in st.labels {
        v := Str(Decimal(st.labels[KeyOf(v)]));
      } else if v.Str? && StartsWith(v.s, "$") {
        unresolved := unresolved + [Unresolved(|st.output|, slot, v.s[1..])];
        v := Str("0");
      }
      if KeyOf(v) in st.constants {
        v := ConstantValue(st.constants[KeyOf(v)]);
      }
      slots := slots[slot := v];
    }
  }

  /** The second pass as a loop over the queued lines. */
  method AssembleQueued(expanded: seq<Queued>, constants: map<string, Constant>) returns (r: Result<Pass2, AsmError>)
    ensures r == SecondPassFrom(expanded, 0, InitialPass2(constants))
  {
    var st := InitialPass2(constants);
    var k := 0;
    while k < |expanded|
      invariant k <= |expanded| && st.WellFormed()
      invariant SecondPassFrom(expanded, 0, InitialPass2(constants)) == SecondPassFrom(expanded, k, st)
    {
      var next := AssembleQueuedLine(expanded[k], st);
      if next.Err? {
        return Err(next.error);
      }
      st := next.value;
      k := k + 1;
    }
    return Ok(st);
  }

  /** The body of the second-pass loop: label prefixes stripped, then a blank line or tokens. */
  method AssembleQueuedLine(q: Queued, st: Pass2) returns (r: Result<Pass2, AsmError>)
    requires st.WellFormed()
    ensures r == AssembleLine(q, st)
  {
    var line := StripLabelPrefixes(q.line);
    if JsTrim(line) == [] {
      return Ok(MapLineToPc(q.origLine, st));
    }
    r := AssembleTokenLine(q.origLine, line, st);
  }

  /** A non-blank line: a LABEL line or an instruction. */
  method AssembleTokenLine(origLine: nat, line: string, st: Pass2) returns (r: Result<Pass2, AsmError>)
    requires st.WellFormed()
    ensures r == AssembleTokens(origLine, line, st)
  {
    var tokens := SplitFields(JsTrim(line), IsJsSpace);
    var mnemonic := ToUpperAscii(tokens[0]);
    if mnemonic == "LABEL" {
      if |tokens| < 2 {
        return Err(LineError(origLine + 1, LabelWithoutName));
      }
      var name := DropTrailingColon(tokens[1]);
      return Ok(BindLabel(name, st));
    }
    r := AssembleInstructionLine(origLine, mnemonic, tokens[1..], st);
  }

  /** An instruction line: shorthand, the operand-slot loop, then the four encoded bytes. */
  method AssembleInstructionLine(origLine: nat, mnemonic: string, operands: seq<string>, st: Pass2)
    returns (r: Result<Pass2, AsmError>)
    requires st.WellFormed()
    ensures r == AssembleInstruction(origLine, mnemonic, operands, st)
  {
    var args := HandleShorthand(mnemonic, operands);
    var slots, unresolved := ResolveOperands([ArgAt(args, 0), ArgAt(args, 1), ArgAt(args, 2)], st);
    if mnemonic !in Opcodes {
      return Err(LineError(origLine + 1, UnknownMnemonic(mnemonic)));
    }
    var word := EncodeWord(mnemonic, slots[0], slots[1], slots[2], st.constants);
    if word.Err? {
      return Err(LineError(origLine + 1, Encoding(word.error)));
    }
    return Ok(st.(output := st.output + [word.value], unresolved := unresolved,
                  lineToPc := st.lineToPc[origLine := st.pc], pc := st.pc + 1));
  }

  /** The patch loop over the forward references, in the order they were met. */
  method ResolveLabels(unresolved: seq<Unresolved>, labels: map<string, nat>, words: seq<Word>)
    returns (r: Result<seq<Word>, AsmError>)
    requires forall u :: u in unresolved ==> u.index < |words| && u.slot < 3
    ensures r == PatchFrom(unresolved, 0, labels, words)
  {
    var output := words;
    var j := 0;
    while j < |unresolved|
      invariant j <= |unresolved| && |output| == |words|
      invariant PatchFrom(unresolved, 0, labels, words) == PatchFrom(unresolved, j, labels, output)
    {
      var u := unresolved[j];
      if "$" + u.target !in labels {
        return Err(UndefinedLabel(u.target, u.index));
      }
      output := output[u.index := SetSlot(output[u.index], u.slot, labels["$" + u.target] % 256)];
      j := j + 1;
    }
    return Ok(output);
  }

  /** assembleFromLines: the two passes, the patch loop and the hexadecimal dump. */
  method AssembleFromLines(lines: seq<string>) returns (r: Result<Assembled, AsmError>)
    ensures r == Assemble(lines)
  {
    var first := CollectConstants(lines);
    if first.Err? {
      return Err(first.error);
    }
    var (constants, expanded) := first.value;
    var second := AssembleQueued(expanded, constants);
    if second.Err? {
      return Err(second.error);
    }
    var st := second.value;
    var patched := ResolveLabels(st.unresolved, st.labels, st.output);
    if patched.Err? {
      return Err(patched.error);
    }
    var words := patched.value;
    return Ok(Assembled(words, HexDump(Flatten(words)), st.lineToPc));
  }
}
