/**
 * The command-line assembler (assembler.py): source lines to a list of
 * four-byte instruction words.
 *
 * A first pass drops comments and blank lines, records `define` constants
 * and macros, binds every leading `name:` prefix to the number of lines kept
 * so far, and keeps the remaining lines. Macro invocations are then expanded
 * by textual substitution, and a second pass encodes each line, binding
 * `LABEL` names on the way. Values are Python integers: `parse_value` does
 * not reduce them, `encode_operand` does. Errors are the exceptions the
 * assembler lets escape, without a line number.
 */
module PyAssembler {
  import opened Wrappers
  import opened Isa
  import opened Text

  datatype PyError =
    | UnknownValue(text: string)        // parse_value found no reading of the text
    | InvalidLiteral(text: string)      // int(text, 16) or int(text, 2) rejected the digits
    | NotEnoughValues(count: nat)       // `op1, op2, dest = args[:3]` with fewer than three
    | InvalidLabel(line: string)        // LABEL without exactly one name
    | DuplicateLabel(name: string)
    | UnknownMnemonic(mnemonic: string)
    | RecursionLimit                    // macros nested deeper than the expansion bound

  // ---- values and encoding ----

  /** The same quote character on both sides of one character. */
  predicate IsCharLiteral(t: string) {
    |t| == 3 && t[0] == t[2] && (t[0] == '\'' || t[0] == '"')
  }

  /** `str.isdigit` on a non-empty string, restricted to ASCII digits. */
  predicate IsDecimalLiteral(t: string) {
    t != [] && AllDigits(t)
  }

  /**
   * parse_value: after stripping, try a constant, a quoted character, `0x`
   * hexadecimal, `0b` binary and a decimal numeral, in that order. Results
   * are not reduced to a byte.
   */
  function ParseValue(val: string, constants: map<string, nat>): (r: Result<nat, PyError>)
    ensures var t := PyStrip(val); t in constants ==> r == Ok(constants[t])
    ensures var t := PyStrip(val); t !in constants && IsCharLiteral(t) ==> r == Ok(t[1] as nat)
    ensures var t := PyStrip(val);
      r == Err(UnknownValue(t)) <==>
        (t !in constants && !IsCharLiteral(t) && !StartsWith(t, "0x") && !StartsWith(t, "0b") && !IsDecimalLiteral(t))
    ensures var t := PyStrip(val);
      r.Err? && !r.error.UnknownValue? ==> r.error == InvalidLiteral(t) && (StartsWith(t, "0x") || StartsWith(t, "0b"))
  {
    var t := PyStrip(val);
    if t in constants then Ok(constants[t])
    else if IsCharLiteral(t) then Ok(t[1] as nat)
    else if StartsWith(t, "0x") then
      match PyParsePrefixed(t, 16)
      case None => Err(InvalidLiteral(t))
      case Some(n) => Ok(n)
    else if StartsWith(t, "0b") then
      match PyParsePrefixed(t, 2)
      case None => Err(InvalidLiteral(t))
      case Some(n) => Ok(n)
    else if IsDecimalLiteral(t) then Ok(DigitsValue(t, 10))
    else Err(UnknownValue(t))
  }

  /** The immediate flag of an operand: set iff it is non-empty and not a register name. */
  predicate ImmediateFlag(op: string) {
    op != [] && op !in Registers
  }

  /** encode_opcode: (imm1 << 6) | (imm2 << 5) | (class << 3) | subtype. */
  function EncodeOpcode(mnemonic: string, op1: string, op2: string): (b: byte)
    requires mnemonic in Opcodes
    ensures b < 0x80
    ensures OpClass(b) == ClassBits(Opcodes[mnemonic].0) && Subtype(b) == Opcodes[mnemonic].1
    ensures Imm1(b) <==> op1 != [] && op1 !in Registers
    ensures Imm2(b) <==> op2 != [] && op2 !in Registers
  {
    OpcodeByte(ImmediateFlag(op1), ImmediateFlag(op2), Opcodes[mnemonic].0, Opcodes[mnemonic].1)
  }

  /** encode_operand: no operand is 0, a register its index, anything else parse_value & 0xFF. */
  function EncodeOperand(val: Option<string>, constants: map<string, nat>): (r: Result<byte, PyError>)
    ensures val.None? ==> r == Ok(0)
    ensures val.Some? && val.value in Registers ==> r == Ok(Registers[val.value])
    ensures val.Some? && val.value !in Registers ==>
      (r.Ok? <==> ParseValue(val.value, constants).Ok?)
      && (r.Ok? ==> r.value == ParseValue(val.value, constants).value % 256)
      && (r.Err? ==> r.error == ParseValue(val.value, constants).error)
  {
    match val
    case None => Ok(0)
    case Some(s) =>
      if s in Registers then Ok(Registers[s])
      else
        var n :- ParseValue(s, constants);
        Ok(n % 256)
  }

  /** The four bytes of an instruction, its operands encoded in order. */
  function EncodeWord(mnemonic: string, op1: string, op2: string, dest: string, constants: map<string, nat>)
    : (r: Result<Word, PyError>)
    requires mnemonic in Opcodes
    ensures r.Ok? ==> (r.value.opcode == EncodeOpcode(mnemonic, op1, op2)
      && EncodeOperand(Some(op1), constants) == Ok(r.value.op1)
      && EncodeOperand(Some(op2), constants) == Ok(r.value.op2)
      && EncodeOperand(Some(dest), constants) == Ok(r.value.dest))
    ensures r.Err? <==> (EncodeOperand(Some(op1), constants).Err? || EncodeOperand(Some(op2), constants).Err?
      || EncodeOperand(Some(dest), constants).Err?)
  {
    var b1 := EncodeOpcode(mnemonic, op1, op2);
    var b2 :- EncodeOperand(Some(op1), constants);
    var b3 :- EncodeOperand(Some(op2), constants);
    var b4 :- EncodeOperand(Some(dest), constants);
    Ok(Word(b1, b2, b3, b4))
  }

  /**
   * handle_shorthand_op: completes the operand list of the short forms. JMP
   * and CALL have no short form here, and no list of three or more operands
   * is changed except HCF's, which is always three zeros.
   */
  function HandleShorthand(op: string, args: seq<string>): (r: seq<string>)
    ensures |args| >= 3 && op != "HCF" ==> r == args
    ensures op == "HCF" ==> r == ["0", "0", "0"]
    ensures |args| == 2 && op == "MOV" ==> r == [args[0], "0", args[1]]
    ensures |args| == 1 && op == "POP" ==> r == ["0", "0", args[0]]
    ensures |args| == 1 && (op == "PUSH" || op == "WRT") ==> r == [args[0], "0", "0"]
    ensures |args| == 2 && op == "WRT" ==> r == args + ["0"]
    ensures op !in {"MOV", "HCF", "WRT", "PUSH", "POP"} ==> r == args
  {
    if op == "MOV" then (if |args| == 2 then [args[0], "0", args[1]] else args)
    else if op == "HCF" then ["0", "0", "0"]
    else if op == "WRT" then
      var padded := if |args| == 1 then args + ["0"] else args;
      if |padded| == 2 then padded + ["0"] else padded
    else if op == "PUSH" && |args| == 1 then args + ["0", "0"]
    else if op == "POP" && |args| == 1 then ["0", "0", args[0]]
    else args
  }

  // ---- first pass: constants, macros, labels ----

  /** A macro: its parameter names and its body lines. */
  datatype Macro = Macro(params: seq<string>, body: seq<string>)

  /** What the pattern `define\s+(\w+)(\((.*?)\))?(\:)?\s*(.*)` captures. */
  datatype DefineMatch = DefineMatch(name: string, arglist: Option<string>, colon: bool, rest: string)

  /** The index of the first `)` when no line terminator comes before it: where `.*?\)` stops. */
  function ClosingParen(t: string): (k: Option<nat>)
    ensures k.Some? ==> k.value < |t| && t[k.value] == ')'
    ensures k.Some? ==> forall i :: 0 <= i < k.value ==> t[i] != ')' && !IsPyLineTerminator(t[i])
  {
    if t == [] || IsPyLineTerminator(t[0]) then None
    else if t[0] == ')' then Some(0)
    else match ClosingParen(t[1..])
      case None => None
      case Some(j) => Some(j + 1)
  }

  /** The optional group `(\((.*?)\))`: a parenthesised argument list and the text after it. */
  function ParenGroup(s: string): (r: (Option<string>, string))
    ensures r.0.None? ==> r.1 == s
    ensures r.0.Some? ==> s == "(" + r.0.value + ")" + r.1 && ')' !in r.0.value
  {
    if s == [] || s[0] != '(' then (None, s)
    else match ClosingParen(s[1..])
      case None => (None, s)
      case Some(k) =>
        assert s == "(" + s[1..k + 1] + ")" + s[k + 2..];
        (Some(s[1..k + 1]), s[k + 2..])
  }

  /**
   * The define pattern, matched at the start of a line: a name of word
   * characters after the keyword and some space, an optional argument list,
   * an optional colon, and the rest of the line after any space.
   */
  function MatchDefine(line: string): (r: Option<DefineMatch>)
    ensures r.Some? ==> StartsWith(line, "define") && r.value.name != []
    ensures r.Some? ==> forall i :: 0 <= i < |r.value.name| ==> IsWordChar(r.value.name[i])
  {
    if !StartsWith(line, "define") then None
    else
      var afterKeyword := line[6..];
      var afterSpace := TrimStart(afterKeyword, IsPySpace);
      var n := WordPrefixLength(afterSpace);
      if |afterSpace| == |afterKeyword| || n == 0 then None
      else
        var (arglist, afterArgs) := ParenGroup(afterSpace[n..]);
        var colon := afterArgs != [] && afterArgs[0] == ':';
        var afterColon := if colon then afterArgs[1..] else afterArgs;
        Some(DefineMatch(afterSpace[..n], arglist, colon, RestOfLine(TrimStart(afterColon, IsPySpace), IsPyLineTerminator)))
  }

  /**
   * What the define pattern captures: a match needs `define`, at least one
   * space and a word character; the name is the whole run of word characters
   * after the space; an argument list holds no `)`; the rest of the line
   * starts with no space and holds no newline.
   */
  lemma MatchDefineCaptures(line: string)
    ensures MatchDefine(line).None? <==> (!StartsWith(line, "define") || |TrimStart(line[6..], IsPySpace)| == |line| - 6
                                         || WordPrefixLength(TrimStart(line[6..], IsPySpace)) == 0)
    ensures MatchDefine(line).Some? ==> var m := MatchDefine(line).value;
      var afterSpace := TrimStart(line[6..], IsPySpace);
      StartsWith(afterSpace, m.name) && |m.name| == WordPrefixLength(afterSpace)
      && (m.arglist.Some? ==> ')' !in m.arglist.value)
      && (m.rest == [] || !IsPySpace(m.rest[0]))
      && (forall i :: 0 <= i < |m.rest| ==> !IsPyLineTerminator(m.rest[i]))
  {
    if MatchDefine(line).Some? {
      var m := MatchDefine(line).value;
      var afterSpace := TrimStart(line[6..], IsPySpace);
      var (_, afterArgs) := ParenGroup(afterSpace[|m.name|..]);
      var afterColon := if m.colon then afterArgs[1..] else afterArgs;
      var t := TrimStart(afterColon, IsPySpace);
      assert m.rest == RestOfLine(t, IsPyLineTerminator);
      assert m.rest != [] ==> m.rest[0] == t[0];
    }
  }

  /** `s.split(",")`: the text between commas, empty parts kept. */
  function SplitOnComma(s: string): (parts: seq<string>)
    ensures |parts| >= 1
    ensures forall k :: 0 <= k < |parts| ==> ',' !in parts[k]
  {
    if s == [] then [[]]
    else if s[0] == ',' then [[]] + SplitOnComma(s[1..])
    else
      var rest := SplitOnComma(s[1..]);
      [[s[0]] + rest[0]] + rest[1..]
  }

  /** `[a.strip() for a in parts if a.strip()]` */
  function StrippedNonEmpty(parts: seq<string>): (r: seq<string>)
    ensures forall k :: 0 <= k < |r| ==> r[k] != []
    ensures |r| <= |parts|
  {
    if parts == [] then []
    else (if PyStrip(parts[0]) != [] then [PyStrip(parts[0])] else []) + StrippedNonEmpty(parts[1..])
  }

  /** The parameter names of a macro: the comma-separated, stripped, non-empty parts of its argument list. */
  function MacroParams(arglist: Option<string>): (params: seq<string>)
    ensures forall k :: 0 <= k < |params| ==> params[k] != [] && ',' !in params[k]
  {
    match arglist
    case None => []
    case Some(a) =>
      var parts := SplitOnComma(a);
      var params := StrippedNonEmpty(parts);
      StrippedKeepsCommasOut(parts);
      params
  }

  lemma {:induction false} StrippedKeepsCommasOut(parts: seq<string>)
    requires forall k :: 0 <= k < |parts| ==> ',' !in parts[k]
    ensures forall k :: 0 <= k < |StrippedNonEmpty(parts)| ==> ',' !in StrippedNonEmpty(parts)[k]
  {
    if parts != [] {
      StrippedKeepsCommasOut(parts[1..]);
      var s := PyStrip(parts[0]);
      assert forall i :: 0 <= i < |s| ==> s[i] in parts[0] by {
        var t := TrimStart(parts[0], IsPySpace);
        assert forall i :: 0 <= i < |t| ==> t[i] == parts[0][|parts[0]| - |t| + i];
        assert forall i :: 0 <= i < |s| ==> s[i] == t[i];
      }
    }
  }

  /** Line i without its comment and surrounding space. */
  function CleanLine(lines: seq<string>, i: nat): string
    requires i < |lines|
  {
    PyStrip(BeforeSemicolon(lines[i]))
  }

  /** A line that stops a macro body: `end`, or the start of another define. */
  predicate EndsMacro(line: string) {
    line == "end" || StartsWith(line, "define ")
  }

  /** The first line from i on that stops a macro body, or |lines| when none does. */
  function MacroEnd(lines: seq<string>, i: nat): (e: nat)
    requires i <= |lines|
    ensures i <= e <= |lines|
    decreases |lines| - i
  {
    if i == |lines| || EndsMacro(CleanLine(lines, i)) then i else MacroEnd(lines, i + 1)
  }

  /** MacroEnd is the first stopping line: no line before it stops the body, and it does unless it is the end of the file. */
  lemma {:induction false} MacroEndIsFirstStop(lines: seq<string>, i: nat, k: nat)
    requires i <= |lines|
    ensures i <= k < MacroEnd(lines, i) ==> !EndsMacro(CleanLine(lines, k))
    ensures MacroEnd(lines, i) < |lines| ==> EndsMacro(CleanLine(lines, MacroEnd(lines, i)))
    decreases |lines| - i
  {
    if i < |lines| && !EndsMacro(CleanLine(lines, i)) {
      MacroEndIsFirstStop(lines, i + 1, k);
    }
  }

  /** The cleaned lines i..e-1 that are not blank, in order. */
  function NonBlankLines(lines: seq<string>, i: nat, e: nat): (r: seq<string>)
    requires i <= e <= |lines|
    ensures |r| <= e - i
    ensures forall k :: 0 <= k < |r| ==> r[k] != []
    decreases e - i
  {
    if i == e then []
    else (if CleanLine(lines, i) != [] then [CleanLine(lines, i)] else []) + NonBlankLines(lines, i + 1, e)
  }

  /**
   * The body of a macro, collected from line i on: lines up to `end` (which
   * is consumed) or up to the next `define` (which is not), blank lines left
   * out. The result is the index the first pass resumes at, and the body.
   */
  function MacroBodyFrom(lines: seq<string>, i: nat, body: seq<string>): (r: (nat, seq<string>))
    requires i <= |lines|
    ensures i <= r.0 <= |lines|
    decreases |lines| - i
  {
    if i == |lines| then (i, body)
    else
      var line := CleanLine(lines, i);
      if line == "end" then (i + 1, body)
      else if StartsWith(line, "define ") then (i, body)
      else MacroBodyFrom(lines, i + 1, if line != [] then body + [line] else body)
  }

  /** Where the first pass resumes after a body that stops at line e: past an `end`, at a define. */
  function ResumeAfter(lines: seq<string>, e: nat): nat
    requires e <= |lines|
  {
    if e < |lines| && CleanLine(lines, e) == "end" then e + 1 else e
  }

  /**
   * The body scan stops at the first `end` or define from line i on and
   * collects the non-blank lines before it; it resumes after an `end` and at
   * a define.
   */
  lemma {:induction false} MacroBodyIsNonBlankLines(lines: seq<string>, i: nat, body: seq<string>)
    requires i <= |lines|
    ensures var e, r := MacroEnd(lines, i), MacroBodyFrom(lines, i, body);
      r.0 == ResumeAfter(lines, e) && r.1 == body + NonBlankLines(lines, i, e)
    decreases |lines| - i
  {
    if i == |lines| || EndsMacro(CleanLine(lines, i)) {
      MacroBodyStops(lines, i, body);
    } else {
      var line := CleanLine(lines, i);
      var head := if line != [] then [line] else [];
      MacroBodyContinues(lines, i, body);
      MacroBodyIsNonBlankLines(lines, i + 1, body + head);
      BodyLinesAppend(body, head, NonBlankLines(lines, i + 1, MacroEnd(lines, i)));
    }
  }

  /** At a stopping line (or the end of the file) the scan returns at once. */
  lemma MacroBodyStops(lines: seq<string>, i: nat, body: seq<string>)
    requires i <= |lines| && (i == |lines| || EndsMacro(CleanLine(lines, i)))
    ensures MacroEnd(lines, i) == i && NonBlankLines(lines, i, i) == []
    ensures MacroBodyFrom(lines, i, body) == (ResumeAfter(lines, i), body)
  {
  }

  /** Past any other line the scan goes on, collecting the line unless it is blank. */
  lemma MacroBodyContinues(lines: seq<string>, i: nat, body: seq<string>)
    requires i < |lines| && !EndsMacro(CleanLine(lines, i))
    ensures var line := CleanLine(lines, i);
      var head := if line != [] then [line] else [];
      MacroEnd(lines, i) == MacroEnd(lines, i + 1)
      && MacroBodyFrom(lines, i, body) == MacroBodyFrom(lines, i + 1, body + head)
      && NonBlankLines(lines, i, MacroEnd(lines, i)) == head + NonBlankLines(lines, i + 1, MacroEnd(lines, i))
  {
    assert body + [] == body;
  }

  lemma BodyLinesAppend(body: seq<string>, head: seq<string>, tail: seq<string>)
    ensures (body + head) + tail == body + (head + tail)
  {
  }

  /**
   * The label-prefix loop of the first pass: each leading `name:` binds name
   * to pc, until no prefix is left or nothing is left of the line.
   */
  function BindLabelPrefixes(line: string, labels: map<string, nat>, pc: nat): (r: (string, map<string, nat>))
    ensures r.0 == [] || MatchLabelPrefix(r.0, IsPySpace, IsPyLineTerminator).None?
    ensures labels.Keys <= r.1.Keys
    ensures forall l :: l in r.1 ==> r.1[l] == pc || (l in labels && r.1[l] == labels[l])
    ensures MatchLabelPrefix(line, IsPySpace, IsPyLineTerminator).Some? ==>
      var name := MatchLabelPrefix(line, IsPySpace, IsPyLineTerminator).value.0; name in r.1 && r.1[name] == pc
    decreases |line|
  {
    match MatchLabelPrefix(line, IsPySpace, IsPyLineTerminator)
    case None => (line, labels)
    case Some((name, rest)) =>
      if rest == [] then ([], labels[name := pc])
      else BindLabelPrefixes(rest, labels[name := pc], pc)
  }

  datatype FirstPass = FirstPass(
    constants: map<string, nat>,
    macros: map<string, Macro>,
    labels: map<string, nat>,
    expanded: seq<string>)
  {
    /** A label is the position of a kept line, or the position just past the last one. */
    predicate WellFormed() {
      forall l :: l in labels ==> labels[l] <= |expanded|
    }
  }

  /**
   * Line i of the first pass, and the index to go on from: a blank line is
   * skipped, a `define` line is handled by DefineLine, and any other line by
   * KeepLine.
   */
  function FirstPassLine(lines: seq<string>, i: nat, st: FirstPass): (r: Result<(nat, FirstPass), PyError>)
    requires i < |lines| && st.WellFormed()
    ensures r.Ok? ==> i < r.value.0 <= |lines| && r.value.1.WellFormed()
  {
    var line := CleanLine(lines, i);
    var define := if StartsWith(line, "define ") then MatchDefine(line) else None;
    if line == [] then Ok((i + 1, st))
    else if define.Some? then DefineLine(lines, i, define.value, st)
    else Ok((i + 1, KeepLine(line, st)))
  }

  /**
   * The three kinds of line: a blank one is skipped, one the define pattern
   * matches is a define, and every other one (a `define ` line the pattern
   * does not match included) goes to the label and keep step.
   */
  lemma FirstPassLineCases(lines: seq<string>, i: nat, st: FirstPass)
    requires i < |lines| && st.WellFormed()
    ensures CleanLine(lines, i) == [] ==> FirstPassLine(lines, i, st) == Ok((i + 1, st))
    ensures var line := CleanLine(lines, i);
      line != [] && StartsWith(line, "define ") && MatchDefine(line).Some? ==>
        FirstPassLine(lines, i, st) == DefineLine(lines, i, MatchDefine(line).value, st)
    ensures var line := CleanLine(lines, i);
      line != [] && !(StartsWith(line, "define ") && MatchDefine(line).Some?) ==>
        FirstPassLine(lines, i, st) == Ok((i + 1, KeepLine(line, st)))
  {
  }

  /**
   * A `define` line: with a colon it starts a macro, whose body is collected
   * from the next line on, and the first pass resumes after the body;
   * without one, it binds a constant to the value of the rest of the line.
   */
  function DefineLine(lines: seq<string>, i: nat, m: DefineMatch, st: FirstPass): (r: Result<(nat, FirstPass), PyError>)
    requires i < |lines| && st.WellFormed()
    ensures r.Ok? ==> i < r.value.0 <= |lines| && r.value.1.WellFormed()
    ensures r.Ok? ==> r.value.1.labels == st.labels && r.value.1.expanded == st.expanded
    ensures m.colon ==> var (next, body) := MacroBodyFrom(lines, i + 1, []);
      r.Ok? && r.value.0 == next && r.value.1.constants == st.constants
      && r.value.1.macros == st.macros[ToUpperAscii(m.name) := Macro(MacroParams(m.arglist), body)]
    ensures !m.colon ==> (r.Ok? <==> ParseValue(m.rest, st.constants).Ok?)
    ensures !m.colon && r.Ok? ==>
              r.value.0 == i + 1 && r.value.1.macros == st.macros
              && r.value.1.constants == st.constants[m.name := ParseValue(m.rest, st.constants).value]
    ensures !m.colon && r.Err? ==> r.error == ParseValue(m.rest, st.constants).error
  {
    if m.colon then
      var (next, body) := MacroBodyFrom(lines, i + 1, []);
      Ok((next, st.(macros := st.macros[ToUpperAscii(m.name) := Macro(MacroParams(m.arglist), body)])))
    else
      var v :- ParseValue(m.rest, st.constants);
      Ok((i + 1, st.(constants := st.constants[m.name := v])))
  }

  /**
   * Any other line: its label prefixes are bound to the number of lines kept
   * so far, and what is left of it, if anything, is kept.
   */
  function KeepLine(line: string, st: FirstPass): (r: FirstPass)
    requires st.WellFormed()
    ensures r.WellFormed()
    ensures r.constants == st.constants && r.macros == st.macros
    ensures |st.expanded| <= |r.expanded| <= |st.expanded| + 1 && r.expanded[..|st.expanded|] == st.expanded
    ensures line != [] && MatchLabelPrefix(line, IsPySpace, IsPyLineTerminator).None? ==>
      r == st.(expanded := st.expanded + [line])
  {
    var (rest, labels) := BindLabelPrefixes(line, st.labels, |st.expanded|);
    if rest == [] then st.(labels := labels)
    else
      assert (st.expanded + [rest])[..|st.expanded|] == st.expanded;
      st.(labels := labels, expanded := st.expanded + [rest])
  }

  /** The first pass from line i on. */
  function FirstPassFrom(lines: seq<string>, i: nat, st: FirstPass): (r: Result<FirstPass, PyError>)
    requires i <= |lines| && st.WellFormed()
    ensures r.Ok? ==> r.value.WellFormed()
    decreases |lines| - i
  {
    if i == |lines| then Ok(st)
    else
      var (next, st') :- FirstPassLine(lines, i, st);
      FirstPassFrom(lines, next, st')
  }

  // ---- macro expansion ----

  /** The argument map of a macro call, a Python dict as its items in insertion order. */
  type ArgMap = seq<(string, string)>

  /** `d[k] = v`: a key already present keeps its place and takes the new value. */
  function Assign(d: ArgMap, k: string, v: string): (r: ArgMap)
    ensures |r| == |d| || |r| == |d| + 1
    ensures (k, v) in r
    ensures forall j :: 0 <= j < |d| && d[j].0 != k ==> d[j] in r
  {
    if d == [] then [(k, v)]
    else if d[0].0 == k then [(k, v)] + d[1..]
    else [d[0]] + Assign(d[1..], k, v)
  }

  /** `dict(zip(params, actual))`, added to d. */
  function ArgMapOf(params: seq<string>, actual: seq<string>, d: ArgMap): ArgMap
    decreases |params|
  {
    if params == [] || actual == [] then d
    else ArgMapOf(params[1..], actual[1..], Assign(d, params[0], actual[0]))
  }

  /** `s.replace(key, value)`: every occurrence, left to right, without overlaps. */
  function Replace(s: string, key: string, value: string): (r: string)
    decreases |s|
  {
    if key == [] then
      if s == [] then value else value + [s[0]] + Replace(s[1..], key, value)
    else if s == [] then []
    else if StartsWith(s, key) then value + Replace(s[|key|..], key, value)
    else [s[0]] + Replace(s[1..], key, value)
  }

  /** Each item of the map replaced in turn, in insertion order. */
  function SubstituteAll(s: string, d: ArgMap): string
    decreases |d|
  {
    if d == [] then s else SubstituteAll(Replace(s, d[0].0, d[0].1), d[1..])
  }

  /** subst_args on each body line: the call's arguments first, then the enclosing call's. */
  function SubstituteLines(body: seq<string>, args: ArgMap, parent: ArgMap): (r: seq<string>)
    ensures |r| == |body|
  {
    if body == [] then []
    else [SubstituteAll(SubstituteAll(body[0], args), parent)] + SubstituteLines(body[1..], args, parent)
  }

  /**
   * expand_macros, with at most `depth` nested macro calls (Python stops
   * deeper recursion with a RecursionError). Lines whose first token is
   * empty are dropped.
   */
  function ExpandLines(lines: seq<string>, parent: ArgMap, macros: map<string, Macro>, depth: nat)
    : (r: Result<seq<string>, PyError>)
    decreases depth, |lines|
  {
    if lines == [] then Ok([])
    else
      var first :- ExpandLine(lines[0], parent, macros, depth);
      var rest :- ExpandLines(lines[1..], parent, macros, depth);
      Ok(first + rest)
  }

  /**
   * One line: a macro call becomes the macro's body with the arguments
   * substituted, itself expanded with those arguments as the enclosing ones;
   * any other line gets the enclosing call's arguments substituted.
   */
  function ExpandLine(line: string, parent: ArgMap, macros: map<string, Macro>, depth: nat)
    : (r: Result<seq<string>, PyError>)
    decreases depth, 0
  {
    var tokens := SplitFields(PyStrip(line), IsPySpace);
    if tokens[0] == [] then Ok([])
    else
      var mnemonic := ToUpperAscii(tokens[0]);
      if mnemonic !in macros then Ok([SubstituteAll(line, parent)])
      else if depth == 0 then Err(RecursionLimit)
      else
        var m := macros[mnemonic];
        var actual := tokens[1..][..if |tokens| - 1 < |m.params| then |tokens| - 1 else |m.params|];
        var args := ArgMapOf(m.params, actual, []);
        ExpandLines(SubstituteLines(m.body, args, parent), args, macros, depth - 1)
  }

  // ---- second pass: encoding ----

  /** The second pass's tables and the words emitted; pc is the number of words. */
  datatype Pass2 = Pass2(constants: map<string, nat>, labels: map<string, nat>, output: seq<Word>)

  /** The `name:` prefixes removed, without binding anything. */
  function StripLabels(line: string): (r: string)
    ensures MatchLabelPrefix(r, IsPySpace, IsPyLineTerminator).None?
    ensures MatchLabelPrefix(line, IsPySpace, IsPyLineTerminator).None? ==> r == line
    decreases |line|
  {
    match MatchLabelPrefix(line, IsPySpace, IsPyLineTerminator)
    case None => line
    case Some((_, rest)) => StripLabels(rest)
  }

  /** `.strip(":")`: colons removed from both ends. */
  function StripColons(s: string): string {
    TrimEnd(TrimStart(s, c => c == ':'), c => c == ':')
  }

  /** An operand naming a label becomes the label's pc as a decimal numeral. */
  function LabelArgs(args: seq<string>, labels: map<string, nat>): (r: seq<string>)
    ensures |r| == |args|
  {
    seq(|args|, i requires 0 <= i < |args| => if args[i] in labels then Decimal(labels[args[i]]) else args[i])
  }

  /**
   * One expanded line: label prefixes removed; a blank line, or one whose
   * first token is empty, emits nothing; otherwise a LABEL line or an
   * instruction.
   */
  function AssembleLine(line: string, st: Pass2): (r: Result<Pass2, PyError>)
    ensures r.Ok? ==> (|st.output| <= |r.value.output| <= |st.output| + 1
      && r.value.output[..|st.output|] == st.output)
  {
    var stripped := StripLabels(line);
    if PyStrip(stripped) == [] then Ok(st)
    else
      var tokens := SplitFields(PyStrip(stripped), IsPySpace);
      if tokens[0] == [] then Ok(st)
      else
        var mnemonic := ToUpperAscii(tokens[0]);
        if mnemonic == "LABEL" then DefineLabel(stripped, tokens, st)
        else AssembleInstruction(mnemonic, tokens[1..], st)
  }

  /**
   * The cases of one expanded line, after its `name:` prefixes are removed:
   * a blank line or an empty first token emits nothing, `LABEL` (in any case)
   * defines a label, and anything else is an instruction.
   */
  lemma AssembleLineCases(line: string, st: Pass2)
    ensures PyStrip(StripLabels(line)) == [] ==> AssembleLine(line, st) == Ok(st)
    ensures var stripped := StripLabels(line); var tokens := SplitFields(PyStrip(stripped), IsPySpace);
      PyStrip(stripped) != [] && tokens[0] == [] ==> AssembleLine(line, st) == Ok(st)
    ensures var stripped := StripLabels(line); var tokens := SplitFields(PyStrip(stripped), IsPySpace);
      PyStrip(stripped) != [] && tokens[0] != [] && ToUpperAscii(tokens[0]) == "LABEL" ==>
        AssembleLine(line, st) == DefineLabel(stripped, tokens, st)
    ensures var stripped := StripLabels(line); var tokens := SplitFields(PyStrip(stripped), IsPySpace);
      PyStrip(stripped) != [] && tokens[0] != [] && ToUpperAscii(tokens[0]) != "LABEL" ==>
        AssembleLine(line, st) == AssembleInstruction(ToUpperAscii(tokens[0]), tokens[1..], st)
  {
  }

  /**
   * `LABEL name`: exactly one name, not already a label; it becomes a label
   * and a constant, both the current pc, and no word is emitted.
   */
  function DefineLabel(line: string, tokens: seq<string>, st: Pass2): (r: Result<Pass2, PyError>)
    ensures |tokens| != 2 ==> r == Err(InvalidLabel(line))
    ensures |tokens| == 2 && StripColons(PyStrip(tokens[1])) in st.labels ==> r == Err(DuplicateLabel(StripColons(PyStrip(tokens[1]))))
    ensures r.Ok? ==> var name := StripColons(PyStrip(tokens[1]));
      r.value.output == st.output && name !in st.labels
      && r.value.labels == st.labels[name := |st.output|] && r.value.constants == st.constants[name := |st.output|]
  {
    if |tokens| != 2 then Err(InvalidLabel(line))
    else
      var name := StripColons(PyStrip(tokens[1]));
      if name in st.labels then Err(DuplicateLabel(name))
      else Ok(st.(labels := st.labels[name := |st.output|], constants := st.constants[name := |st.output|]))
  }

  /**
   * An instruction: label operands replaced, the short forms completed, the
   * first three operands taken, the mnemonic looked up, the word appended.
   */
  function AssembleInstruction(mnemonic: string, operands: seq<string>, st: Pass2): (r: Result<Pass2, PyError>)
    ensures var args := HandleShorthand(mnemonic, LabelArgs(operands, st.labels));
      |args| < 3 ==> r == Err(NotEnoughValues(|args|))
    ensures |HandleShorthand(mnemonic, LabelArgs(operands, st.labels))| >= 3 && mnemonic !in Opcodes ==>
      r == Err(UnknownMnemonic(mnemonic))
    ensures r.Ok? ==> (|r.value.output| == |st.output| + 1 && r.value.output[..|st.output|] == st.output
      && r.value.labels == st.labels && r.value.constants == st.constants)
    ensures var args := HandleShorthand(mnemonic, LabelArgs(operands, st.labels));
      |args| >= 3 && mnemonic in Opcodes ==>
        var w := EncodeWord(mnemonic, args[0], args[1], args[2], st.constants);
        (r.Ok? <==> w.Ok?)
        && (r.Ok? ==> r.value == st.(output := st.output + [w.value]))
        && (r.Err? ==> r.error == w.error)
  {
    var args := HandleShorthand(mnemonic, LabelArgs(operands, st.labels));
    if |args| < 3 then Err(NotEnoughValues(|args|))
    else if mnemonic !in Opcodes then Err(UnknownMnemonic(mnemonic))
    else
      var w :- EncodeWord(mnemonic, args[0], args[1], args[2], st.constants);
      assert (st.output + [w])[..|st.output|] == st.output;
      Ok(st.(output := st.output + [w]))
  }

  /** The second pass from line k on. */
  function SecondPassFrom(lines: seq<string>, k: nat, st: Pass2): (r: Result<Pass2, PyError>)
    requires k <= |lines|
    ensures r.Ok? ==> (|st.output| <= |r.value.output| <= |st.output| + |lines| - k
      && r.value.output[..|st.output|] == st.output)
    decreases |lines| - k
  {
    if k == |lines| then Ok(st)
    else
      var next :- AssembleLine(lines[k], st);
      var r := SecondPassFrom(lines, k + 1, next);
      if r.Ok? then
        assert r.value.output[..|st.output|] == r.value.output[..|next.output|][..|st.output|];
        r
      else r
  }

  function InitialFirstPass(): (st: FirstPass)
    ensures st.WellFormed()
  {
    FirstPass(map[], map[], map[], [])
  }

  /** assemble, with macro calls nested at most `depth` deep: the first exception is the result. */
  function Assemble(lines: seq<string>, depth: nat): Result<seq<Word>, PyError> {
    var fp :- FirstPassFrom(lines, 0, InitialFirstPass());
    var expanded :- ExpandLines(fp.expanded, [], fp.macros, depth);
    var st :- SecondPassFrom(expanded, 0, Pass2(fp.constants, fp.labels, []));
    Ok(st.output)
  }

  // ---- the passes as loops ----

  lemma BodyStep(lines: seq<string>, i: nat, body: seq<string>)
    requires i < |lines| && CleanLine(lines, i) != "end" && !StartsWith(CleanLine(lines, i), "define ")
    ensures MacroBodyFrom(lines, i, body)
      == MacroBodyFrom(lines, i + 1, if CleanLine(lines, i) != [] then body + [CleanLine(lines, i)] else body)
  {
  }

  /** The inner loop of the first pass that collects a macro body. */
  method CollectMacroBody(lines: seq<string>, start: nat) returns (next: nat, body: seq<string>)
    requires start <= |lines|
    ensures (next, body) == MacroBodyFrom(lines, start, [])
  {
    var i := start;
    body := [];
    while i < |lines|
      invariant start <= i <= |lines|
      invariant MacroBodyFrom(lines, start, []) == MacroBodyFrom(lines, i, body)
      decreases |lines| - i
    {
      var line := CleanLine(lines, i);
      if line == "end" {
        assert MacroBodyFrom(lines, i, body) == (i + 1, body);
        i := i + 1;
        break;
      }
      if StartsWith(line, "define ") {
        assert MacroBodyFrom(lines, i, body) == (i, body);
        break;
      }
      ghost var before := body;
      if line != [] {
        body := body + [line];
      }
      BodyStep(lines, i, before);
      i := i + 1;
    }
    next := i;
  }

  /** The `while True` label-prefix loop of the first pass. */
  method BindLabelPrefixLoop(line: string, labels: map<string, nat>, pc: nat) returns (rest: string, bound: map<string, nat>)
    ensures (rest, bound) == BindLabelPrefixes(line, labels, pc)
  {
    rest, bound := line, labels;
    while true
      invariant BindLabelPrefixes(line, labels, pc) == BindLabelPrefixes(rest, bound, pc)
      decreases |rest|
    {
      var m := MatchLabelPrefix(rest, IsPySpace, IsPyLineTerminator);
      if m.None? {
        break;
      }
      bound := bound[m.value.0 := pc];
      rest := m.value.1;
      if rest == [] {
        break;
      }
    }
  }

  /** A `define` line: the macro-body loop, or the constant's value. */
  method DefineStep(lines: seq<string>, i: nat, m: DefineMatch, st: FirstPass) returns (r: Result<(nat, FirstPass), PyError>)
    requires i < |lines| && st.WellFormed()
    ensures r == DefineLine(lines, i, m, st)
  {
    if m.colon {
      var next, body := CollectMacroBody(lines, i + 1);
      return Ok((next, st.(macros := st.macros[ToUpperAscii(m.name) := Macro(MacroParams(m.arglist), body)])));
    }
    var v := ParseValue(m.rest, st.constants);
    if v.Err? {
      return Err(v.error);
    }
    return Ok((i + 1, st.(constants := st.constants[m.name := v.value])));
  }

  /** The body of the first-pass loop: line i handled, and the index to go on from. */
  method FirstPassStep(lines: seq<string>, i: nat, st: FirstPass, pc: nat) returns (r: Result<(nat, FirstPass), PyError>)
    requires i < |lines| && st.WellFormed() && pc == |st.expanded|
    ensures r == FirstPassLine(lines, i, st)
  {
    var line := CleanLine(lines, i);
    if line == [] {
      return Ok((i + 1, st));
    }
    if StartsWith(line, "define ") {
      var define := MatchDefine(line);
      if define.Some? {
        r := DefineStep(lines, i, define.value, st);
        return;
      }
    }
    var rest, labels := BindLabelPrefixLoop(line, st.labels, pc);
    if rest == [] {
      return Ok((i + 1, st.(labels := labels)));
    }
    return Ok((i + 1, st.(labels := labels, expanded := st.expanded + [rest])));
  }

  /**
   * The first pass as the source's index-driven loop over the lines; the
   * four tables are the fields of `st`, and pc counts the lines kept.
   */
  method FirstPassLoop(lines: seq<string>) returns (r: Result<FirstPass, PyError>)
    ensures r == FirstPassFrom(lines, 0, InitialFirstPass())
  {
    var st := InitialFirstPass();
    var pc := 0;
    var i := 0;
    while i < |lines|
      invariant i <= |lines| && pc == |st.expanded| && st.WellFormed()
      invariant FirstPassFrom(lines, 0, InitialFirstPass()) == FirstPassFrom(lines, i, st)
      decreases |lines| - i
    {
      var step := FirstPassStep(lines, i, st, pc);
      if step.Err? {
        return Err(step.error);
      }
      i, st := step.value.0, step.value.1;
      pc := |st.expanded|;
    }
    return Ok(st);
  }

  /** The loop that replaces label operands by their pc, one operand at a time. */
  method SubstituteLabelOperands(args: seq<string>, labels: map<string, nat>) returns (r: seq<string>)
    ensures r == LabelArgs(args, labels)
  {
    r := args;
    for i := 0 to |args|
      invariant |r| == |args|
      invariant forall j :: 0 <= j < i ==> r[j] == LabelArgs(args, labels)[j]
      invariant forall j :: i <= j < |args| ==> r[j] == args[j]
    {
      if r[i] in labels {
        r := r[i := Decimal(labels[r[i]])];
      }
    }
  }

  /** The `while True` loop of the second pass that drops label prefixes. */
  method StripLabelPrefixes(line: string) returns (rest: string)
    ensures rest == StripLabels(line)
  {
    rest := line;
    while MatchLabelPrefix(rest, IsPySpace, IsPyLineTerminator).Some?
      invariant StripLabels(rest) == StripLabels(line)
      decreases |rest|
    {
      rest := MatchLabelPrefix(rest, IsPySpace, IsPyLineTerminator).value.1;
    }
  }

  /** The body of the second-pass loop. */
  method AssembleExpandedLine(line: string, st: Pass2) returns (r: Result<Pass2, PyError>)
    ensures r == AssembleLine(line, st)
  {
    var stripped := StripLabelPrefixes(line);
    if PyStrip(stripped) == [] {
      return Ok(st);
    }
    var tokens := SplitFields(PyStrip(stripped), IsPySpace);
    if tokens[0] == [] {
      return Ok(st);
    }
    var mnemonic := ToUpperAscii(tokens[0]);
    if mnemonic == "LABEL" {
      return DefineLabel(stripped, tokens, st);
    }
    var args := SubstituteLabelOperands(tokens[1..], st.labels);
    args := HandleShorthand(mnemonic, args);
    if |args| < 3 {
      return Err(NotEnoughValues(|args|));
    }
    if mnemonic !in Opcodes {
      return Err(UnknownMnemonic(mnemonic));
    }
    var w := EncodeWord(mnemonic, args[0], args[1], args[2], st.constants);
    if w.Err? {
      return Err(w.error);
    }
    return Ok(st.(output := st.output + [w.value]));
  }

  /** The second pass as a loop over the expanded lines. */
  method SecondPassLoop(expanded: seq<string>, constants: map<string, nat>, labels: map<string, nat>)
    returns (r: Result<Pass2, PyError>)
    ensures r == SecondPassFrom(expanded, 0, Pass2(constants, labels, []))
  {
    var st := Pass2(constants, labels, []);
    for k := 0 to |expanded|
      invariant SecondPassFrom(expanded, 0, Pass2(constants, labels, [])) == SecondPassFrom(expanded, k, st)
    {
      var next := AssembleExpandedLine(expanded[k], st);
      if next.Err? {
        return Err(next.error);
      }
      st := next.value;
    }
    return Ok(st);
  }

  /** assemble: the first pass, macro expansion, the second pass. */
  method AssembleLines(lines: seq<string>, depth: nat) returns (r: Result<seq<Word>, PyError>)
    ensures r == Assemble(lines, depth)
  {
    var fp := FirstPassLoop(lines);
    if fp.Err? {
      return Err(fp.error);
    }
    var expanded := ExpandLines(fp.value.expanded, [], fp.value.macros, depth);
    if expanded.Err? {
      return Err(expanded.error);
    }
    var st := SecondPassLoop(expanded.value, fp.value.constants, fp.value.labels);
    if st.Err? {
      return Err(st.error);
    }
    return Ok(st.value.output);
  }
}
