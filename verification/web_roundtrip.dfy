/**
 * The browser assembler reading back what the browser disassembler prints
 * (web/src/vm.js `disassemble`, web/src/assembler.js `assembleFromLines`):
 * the listing of a word of class 0, 1 or 2, given to the assembler as a
 * one-line program, assembles into one word; that word lists the same way,
 * except for NOT and SWAP, whose destination the assembler reads as the
 * second operand.
 */
module WebRoundTrip {
  import opened Wrappers
  import opened Isa
  import opened Text
  import opened WebDisassembler
  import opened WebAssembler
  import opened WebAssemblerProps

  // ---- the listing as text ----

  /** A token of a listing: non-empty, no separator, no `;`. */
  predicate IsField(f: string) {
    f != [] && NoSeparator(f, IsJsSpace) && ';' !in f
  }

  predicate AllFields(fs: seq<string>) {
    forall k :: 0 <= k < |fs| ==> IsField(fs[k])
  }

  /** Letters, digits and `_` only. */
  predicate IsWordText(s: string) {
    s != [] && forall i :: 0 <= i < |s| ==> IsWordChar(s[i])
  }

  lemma WordTextIsField(s: string)
    requires IsWordText(s)
    ensures IsField(s)
  {
    assert forall i :: 0 <= i < |s| ==> s[i] != ';';
  }

  /** A digit of radix 16 or less is a letter or a decimal digit. */
  lemma DigitIsWordChar(c: char, radix: nat)
    requires radix <= 16 && IsDigitIn(c, radix)
    ensures IsWordChar(c)
  {
  }

  /** A prefix of letters followed by a numeral is word text. */
  lemma NumeralIsWordText(prefix: string, digits: string, radix: nat)
    requires radix <= 16 && forall i :: 0 <= i < |prefix| ==> IsWordChar(prefix[i])
    requires digits != [] && forall i :: 0 <= i < |digits| ==> IsDigitIn(digits[i], radix)
    ensures IsWordText(prefix + digits)
  {
    forall i | 0 <= i < |prefix + digits|
      ensures IsWordChar((prefix + digits)[i])
    {
      if i >= |prefix| {
        DigitIsWordChar(digits[i - |prefix|], radix);
      }
    }
  }

  /** No `;` in any field or separator means none in the joined text. */
  lemma {:induction false} InterleaveWithout(c: char, fields: seq<string>, seps: seq<string>)
    requires |fields| == |seps| + 1
    requires forall k :: 0 <= k < |fields| ==> c !in fields[k]
    requires forall k :: 0 <= k < |seps| ==> c !in seps[k]
    ensures c !in Interleave(fields, seps)
    decreases |seps|
  {
    if seps != [] {
      InterleaveWithout(c, fields[1..], seps[1..]);
    }
  }

  /** The joined text ends with the last field. */
  lemma {:induction false} InterleaveEnds(fields: seq<string>, seps: seq<string>)
    requires |fields| == |seps| + 1
    ensures var s, last := Interleave(fields, seps), fields[|fields| - 1];
      |last| <= |s| && s[|s| - |last|..] == last
    decreases |seps|
  {
    if seps != [] {
      InterleaveEnds(fields[1..], seps[1..]);
    }
  }

  /** The separators of a listing are separator runs without `;`. */
  lemma ListingSeparatorsAreRuns(n: nat)
    ensures forall k :: 0 <= k < n ==> SeparatorRun(ListingSeparators(n)[k], IsJsSpace) && ';' !in ListingSeparators(n)[k]
  {
    var seps := ListingSeparators(n);
    forall k | 0 <= k < n
      ensures SeparatorRun(seps[k], IsJsSpace) && ';' !in seps[k]
    {
      assert seps[k] == " " || seps[k] == ", ";
    }
  }

  /** The tokens of a listing are its mnemonic and its operands. */
  lemma ListingSplits(op: string, operands: seq<string>)
    requires IsField(op) && AllFields(operands)
    ensures SplitFields(Listing(op, operands), IsJsSpace) == [op] + operands
  {
    var fields, seps := [op] + operands, ListingSeparators(|operands|);
    ListingSeparatorsAreRuns(|operands|);
    assert forall k :: 0 <= k < |fields| ==> IsField(fields[k]);
    SplitInterleaved(fields, seps, IsJsSpace);
  }

  /** A listing has no `;`, and nothing for `trim` to remove. */
  lemma ListingIsClean(op: string, operands: seq<string>)
    requires IsField(op) && AllFields(operands)
    ensures var text := Listing(op, operands);
      text != [] && ';' !in text && !IsJsSpace(text[0]) && !IsJsSpace(text[|text| - 1])
  {
    var fields, seps := [op] + operands, ListingSeparators(|operands|);
    var text := Interleave(fields, seps);
    ListingSeparatorsAreRuns(|operands|);
    assert forall k :: 0 <= k < |fields| ==> IsField(fields[k]);
    InterleaveWithout(';', fields, seps);
    InterleaveEnds(fields, seps);
    var last := fields[|fields| - 1];
    assert text[|text| - 1] == last[|last| - 1];
    assert !IsSeparator(last[|last| - 1], IsJsSpace);
    assert text[0] == op[0] && !IsSeparator(op[0], IsJsSpace);
  }

  lemma {:induction false} BeforeSemicolonAppend(a: string, b: string)
    requires ';' !in a
    ensures BeforeSemicolon(a + b) == a + BeforeSemicolon(b)
    decreases |a|
  {
    if a != [] {
      assert (a + b)[0] == a[0] && (a + b)[1..] == a[1..] + b;
      BeforeSemicolonAppend(a[1..], b);
      assert a == [a[0]] + a[1..];
    } else {
      assert a + b == b;
    }
  }

  /** A trailing space is all `trim` removes from a text that starts and ends with something else. */
  lemma TrimTrailingSpace(a: string)
    requires a != [] && !IsJsSpace(a[0]) && !IsJsSpace(a[|a| - 1])
    ensures JsTrim(a + " ") == a && JsTrim(a) == a
  {
    TrimKeeps(a, IsJsSpace);
    var t := a + " ";
    assert LeadingRun(t, IsJsSpace) == 0;
    assert TrimStart(t, IsJsSpace) == t;
    assert t[..|t| - 1] == a;
    assert TrimEnd(t, IsJsSpace) == TrimEnd(a, IsJsSpace);
  }

  /** A WRT comment: a space, then `;`. */
  predicate IsTrailer(trailer: string) {
    trailer == [] || (|trailer| >= 2 && trailer[..2] == " ;")
  }

  /**
   * The first pass's cleaning of a text that is already trimmed and has no
   * `;`, followed by a comment: the comment is cut off with the space before
   * it, and nothing else changes.
   */
  lemma CleanText(a: string, trailer: string)
    requires a != [] && ';' !in a && !IsJsSpace(a[0]) && !IsJsSpace(a[|a| - 1]) && IsTrailer(trailer)
    ensures JsTrim(BeforeSemicolon(a + trailer)) == a && JsTrim(a) == a
  {
    var b := BeforeSemicolon(a + trailer);
    assert b == a || b == a + " " by {
      var cut := if trailer == [] then [] else " ";
      BeforeSemicolonAppend(a, trailer);
      TrailerCut(trailer);
      assert b == a + cut;
      assert a + [] == a;
    }
    assert JsTrim(a + " ") == a && JsTrim(a) == a by {
      TrimTrailingSpace(a);
    }
  }

  /** What the cut at the first `;` leaves of a comment: its leading space. */
  lemma TrailerCut(trailer: string)
    requires IsTrailer(trailer)
    ensures BeforeSemicolon(trailer) == if trailer == [] then [] else " "
  {
    if trailer != [] {
      assert trailer[0] == ' ' && trailer[1] == ';';
      assert BeforeSemicolon(trailer[1..]) == [];
    }
  }

  /** CleanText for a listing. */
  lemma CleanListing(op: string, operands: seq<string>, trailer: string)
    requires IsField(op) && AllFields(operands) && IsTrailer(trailer)
    ensures JsTrim(BeforeSemicolon(Listing(op, operands) + trailer)) == Listing(op, operands)
    ensures JsTrim(Listing(op, operands)) == Listing(op, operands)
  {
    ListingIsClean(op, operands);
    CleanText(Listing(op, operands), trailer);
  }

  // ---- the listing as a program ----

  /** Upper-case letters only, as every mnemonic is. */
  predicate IsUpperWord(s: string) {
    s != [] && forall i :: 0 <= i < |s| ==> 'A' <= s[i] <= 'Z'
  }

  /** Upper-casing leaves an upper-case word as it is. */
  lemma UpperWordIsUpper(op: string)
    requires IsUpperWord(op)
    ensures ToUpperAscii(op) == op
  {
    var u := ToUpperAscii(op);
    assert |u| == |op|;
    forall i | 0 <= i < |op|
      ensures u[i] == op[i]
    {
    }
  }

  lemma {:induction false} WordRunLength(s: string, n: nat)
    requires n <= |s| && forall i :: 0 <= i < n ==> IsWordChar(s[i])
    requires n == |s| || !IsWordChar(s[n])
    ensures WordPrefixLength(s) == n
    decreases n
  {
    if n > 0 {
      WordRunLength(s[1..], n - 1);
    }
  }

  /** A listing carries no `name:` prefix, so stripping labels leaves it as it is. */
  lemma ListingHasNoLabel(op: string, operands: seq<string>)
    requires IsUpperWord(op)
    ensures StripLabels(Listing(op, operands)) == Listing(op, operands)
  {
    var text := Listing(op, operands);
    WordRunLength(text, |op|);
    MatchLabelPrefixCaptures(text, IsJsSpace, IsJsLineTerminator);
  }

  /** A second-pass state with no labels and no constants. */
  predicate NoTables(st: Pass2) {
    st.labels == map[] && st.constants == map[]
  }

  /** An operand slot that is not a `$` reference. */
  predicate NoReference(v: JsValue) {
    v.Str? ==> !StartsWith(v.s, "$")
  }

  /** Without labels, constants or `$` references, resolving leaves every slot as it is. */
  lemma {:induction false} ResolveWithoutTables(slots: seq<JsValue>, i: nat, st: Pass2)
    requires |slots| == 3 && i <= 3 && NoTables(st)
    requires forall k :: 0 <= k < 3 ==> NoReference(slots[k])
    ensures ResolveSlots(slots, i, st) == (slots, st.unresolved)
    decreases 3 - i
  {
    if i < 3 {
      assert ResolveSlot(slots[i], st.labels, st.constants) == (slots[i], None);
      assert slots[i := slots[i]] == slots;
      ResolveWithoutTables(slots, i + 1, st);
    }
  }

  /** The word a mnemonic and its operand tokens encode into, with no labels or constants. */
  predicate EncodesTo(op: string, operands: seq<string>, w: Word) {
    op in Opcodes
    && var args := HandleShorthand(op, operands);
    (forall k :: 0 <= k < |args| ==> !StartsWith(args[k], "$"))
    && EncodeWord(op, ArgAt(args, 0), ArgAt(args, 1), ArgAt(args, 2), map[]) == Ok(w)
  }

  /** The second pass on a listing line emits the encoded word and maps the line to its pc. */
  lemma ListingLineAssembles(op: string, operands: seq<string>, i: nat, st: Pass2, w: Word)
    requires IsUpperWord(op) && AllFields(operands) && op != "LABEL" && EncodesTo(op, operands, w)
    requires st.WellFormed() && NoTables(st)
    ensures AssembleLine(Queued(Listing(op, operands), i), st)
      == Ok(st.(output := st.output + [w], lineToPc := st.lineToPc[i := st.pc], pc := st.pc + 1))
  {
    assert AssembleLine(Queued(Listing(op, operands), i), st) == AssembleInstruction(i, op, operands, st) by {
      ListingLineIsInstruction(op, operands, i, st);
    }
    InstructionWithoutTables(op, operands, i, st, w);
  }

  /** A listing line reaches the second pass as its mnemonic and its operand tokens. */
  lemma ListingLineIsInstruction(op: string, operands: seq<string>, i: nat, st: Pass2)
    requires IsUpperWord(op) && AllFields(operands) && op != "LABEL" && st.WellFormed()
    ensures AssembleLine(Queued(Listing(op, operands), i), st) == AssembleInstruction(i, op, operands, st)
  {
    var text := Listing(op, operands);
    assert StripLabels(text) == text by {
      ListingHasNoLabel(op, operands);
    }
    assert JsTrim(text) == text && text != [] && SplitFields(text, IsJsSpace) == [op] + operands by {
      ListingTokens(op, operands);
    }
    assert ToUpperAscii(op) == op by {
      UpperWordIsUpper(op);
    }
    LineIsInstruction(text, op, operands, i, st);
  }

  /** A line without labels that trims to itself and splits into op and operands assembles as that instruction. */
  lemma LineIsInstruction(text: string, op: string, operands: seq<string>, i: nat, st: Pass2)
    requires StripLabels(text) == text && JsTrim(text) == text && text != []
    requires SplitFields(text, IsJsSpace) == [op] + operands && ToUpperAscii(op) == op && op != "LABEL"
    requires st.WellFormed()
    ensures AssembleLine(Queued(text, i), st) == AssembleInstruction(i, op, operands, st)
  {
    UnlabelledLineIsTokens(text, i, st);
    TokensAreInstruction(text, op, operands, i, st);
  }

  /** A line with no label prefix and something left after trimming goes to the tokenizer as it is. */
  lemma UnlabelledLineIsTokens(text: string, i: nat, st: Pass2)
    requires StripLabels(text) == text && JsTrim(text) != [] && st.WellFormed()
    ensures AssembleLine(Queued(text, i), st) == AssembleTokens(i, text, st)
  {
  }

  /** A line whose first token is an upper-case mnemonic other than LABEL is that instruction with the other tokens. */
  lemma TokensAreInstruction(text: string, op: string, operands: seq<string>, i: nat, st: Pass2)
    requires SplitFields(JsTrim(text), IsJsSpace) == [op] + operands && ToUpperAscii(op) == op && op != "LABEL"
    requires st.WellFormed()
    ensures AssembleTokens(i, text, st) == AssembleInstruction(i, op, operands, st)
  {
    assert ([op] + operands)[0] == op && ([op] + operands)[1..] == operands;
  }

  /** A listing, trimmed, is itself, and it splits into its mnemonic and operands. */
  lemma ListingTokens(op: string, operands: seq<string>)
    requires IsUpperWord(op) && AllFields(operands)
    ensures var text := Listing(op, operands);
      JsTrim(text) == text && text != [] && SplitFields(text, IsJsSpace) == [op] + operands
  {
    assert IsField(op) by {
      WordTextIsField(op);
    }
    CleanListing(op, operands, []);
    ListingIsClean(op, operands);
    ListingSplits(op, operands);
  }

  /** With no labels or constants, an instruction that encodes emits its word. */
  lemma InstructionWithoutTables(op: string, operands: seq<string>, i: nat, st: Pass2, w: Word)
    requires EncodesTo(op, operands, w) && st.WellFormed() && NoTables(st)
    ensures AssembleInstruction(i, op, operands, st)
      == Ok(st.(output := st.output + [w], lineToPc := st.lineToPc[i := st.pc], pc := st.pc + 1))
  {
    var args := HandleShorthand(op, operands);
    var slots := [ArgAt(args, 0), ArgAt(args, 1), ArgAt(args, 2)];
    assert ResolveSlots(slots, 0, st) == (slots, st.unresolved) by {
      SlotsResolveToThemselves(args, st);
    }
  }

  /** The operand slots of a token list with no `$` reference, resolved without tables, are left as they are. */
  lemma SlotsResolveToThemselves(args: seq<string>, st: Pass2)
    requires NoTables(st) && forall k :: 0 <= k < |args| ==> !StartsWith(args[k], "$")
    ensures var slots := [ArgAt(args, 0), ArgAt(args, 1), ArgAt(args, 2)];
      ResolveSlots(slots, 0, st) == (slots, st.unresolved)
  {
    var slots := [ArgAt(args, 0), ArgAt(args, 1), ArgAt(args, 2)];
    assert NoReference(slots[0]) && NoReference(slots[1]) && NoReference(slots[2]);
    ResolveWithoutTables(slots, 0, st);
  }

  /**
   * A listing line, WRT comment and all, as a one-line program: the first
   * pass queues it as line 0, the second pass encodes it, nothing is left
   * to patch.
   */
  lemma ListingAssembles(op: string, operands: seq<string>, trailer: string, w: Word)
    requires IsUpperWord(op) && AllFields(operands) && op != "LABEL" && EncodesTo(op, operands, w)
    requires IsTrailer(trailer)
    ensures Assemble([Listing(op, operands) + trailer]) == Ok(Assembled([w], HexDump(Flatten([w])), map[0 := 0]))
  {
    var text := Listing(op, operands);
    var st := InitialPass2(map[]);
    var st' := st.(output := [w], lineToPc := map[0 := 0], pc := 1);
    assert FirstPassFrom([text + trailer], 0, map[], []) == Ok((map[], [Queued(text, 0)])) by {
      ListingQueued(op, operands, trailer);
    }
    assert SecondPassFrom([Queued(text, 0)], 0, st) == Ok(st') by {
      ListingLineAssembles(op, operands, 0, st, w);
      assert st.output + [w] == [w];
    }
  }

  /** The first pass queues a listing line, cleaned, as line 0 and binds no constant. */
  lemma ListingQueued(op: string, operands: seq<string>, trailer: string)
    requires IsUpperWord(op) && AllFields(operands) && IsTrailer(trailer)
    ensures FirstPassFrom([Listing(op, operands) + trailer], 0, map[], []) == Ok((map[], [Queued(Listing(op, operands), 0)]))
  {
    var text := Listing(op, operands);
    ListingCleans(op, operands, trailer);
    ListingIsNoDefine(op, operands);
    OneLineQueued(text + trailer, text);
  }

  /** The first pass's cleaning of a listing line leaves the listing without its comment. */
  lemma ListingCleans(op: string, operands: seq<string>, trailer: string)
    requires IsUpperWord(op) && AllFields(operands) && IsTrailer(trailer)
    ensures CleanLine([Listing(op, operands) + trailer], 0) == Listing(op, operands) && Listing(op, operands) != []
  {
    WordTextIsField(op);
    CleanListing(op, operands, trailer);
  }

  /** A listing starts with an upper-case mnemonic, so it is no `define`. */
  lemma ListingIsNoDefine(op: string, operands: seq<string>)
    requires IsUpperWord(op)
    ensures MatchDefine(Listing(op, operands)).None?
  {
    var text := Listing(op, operands);
    assert text[0] == op[0];
    assert !StartsWith(text, "define");
  }

  /** A one-line program whose cleaned line is neither blank nor a define: that line is queued as line 0. */
  lemma OneLineQueued(raw: string, text: string)
    requires CleanLine([raw], 0) == text && text != [] && MatchDefine(text).None?
    ensures FirstPassFrom([raw], 0, map[], []) == Ok((map[], [Queued(text, 0)]))
  {
    assert FirstPassLine(text, 0, map[], []) == Ok((map[], [Queued(text, 0)])) by {
      assert [] + [Queued(text, 0)] == [Queued(text, 0)];
    }
  }

  // ---- operand tokens read back ----

  /** A slot sets the immediate flag `imm` and encodes as v, with no constants. */
  predicate Reads(t: JsValue, imm: bool, v: byte) {
    ImmediateFlag(t) == Ok(imm) && EncodeOperand(t, map[]) == Ok(v)
  }

  /** A token the assembler reads without a table: a field, and no `$` reference. */
  predicate IsToken(t: string) {
    IsField(t) && !StartsWith(t, "$")
  }

  lemma WordTextIsToken(s: string)
    requires IsWordText(s)
    ensures IsToken(s)
  {
    WordTextIsField(s);
    assert IsWordChar(s[0]);
  }

  /** A digit-led token that parseValue reads as v sets the immediate flag and encodes as v. */
  lemma ParsedReads(t: string, v: byte)
    requires t != [] && IsDigit(t[0]) && ParseValue(Str(t), map[]) == Ok(v)
    ensures Reads(Str(t), true, v)
  {
    DigitLedKeyIsNoRegister(t);
  }

  /** A text that names no register and parses as v is an immediate reading as v. */
  lemma NoRegisterReads(t: string, v: byte)
    requires t != [] && t !in Registers && !IsUppercaseRegisterName(t) && ParseValue(Str(t), map[]) == Ok(v)
    ensures Reads(Str(t), true, v)
  {
  }

  /** `0x` and hexadecimal digits: an immediate, read back as the digits' value. */
  lemma HexTextReadsBack(h: string, d: byte)
    requires h != [] && forall i :: 0 <= i < |h| ==> IsDigitIn(h[i], 16)
    requires DigitsValue(h, 16) == d
    ensures Reads(Str("0x" + h), true, d) && IsToken("0x" + h)
  {
    HexTextReads(h, d);
    HexTextIsToken(h);
  }

  lemma HexTextReads(h: string, d: byte)
    requires h != [] && forall i :: 0 <= i < |h| ==> IsDigitIn(h[i], 16)
    requires DigitsValue(h, 16) == d
    ensures Reads(Str("0x" + h), true, d)
  {
    HexTextParses(h, d);
    assert ("0x" + h)[0] == '0';
    ParsedReads("0x" + h, d);
  }

  lemma HexTextIsToken(h: string)
    requires h != [] && forall i :: 0 <= i < |h| ==> IsDigitIn(h[i], 16)
    ensures IsToken("0x" + h)
  {
    NumeralIsWordText("0x", h, 16);
    WordTextIsToken("0x" + h);
  }

  lemma HexTextParses(h: string, d: byte)
    requires h != [] && forall i :: 0 <= i < |h| ==> IsDigitIn(h[i], 16)
    requires DigitsValue(h, 16) == d
    ensures ParseValue(Str("0x" + h), map[]) == Ok(d)
  {
    assert ParseValue(Str("0x" + h), map[]) == Ok(ParseIntByte(h, 16)) by {
      ParseValueOfHex(h, map[]);
    }
    HexDigitsParse(h, d);
  }

  /** The operand texts of the disassembler are tokens and read back as the byte they show. */
  lemma OperandTextReads(v: byte, imm: bool)
    ensures Reads(Str(OperandText(v, imm)), imm, if imm then v else v % 8) && IsToken(OperandText(v, imm))
  {
    OperandTextRoundTrip(v, imm, map[]);
    if imm {
      HexTextReadsBack(HexByte(v, true), v);
    } else {
      NumeralIsWordText("r", Decimal(v % 8), 10);
      WordTextIsToken(RegName(v));
    }
  }

  /** COND's unpadded target reads back as the destination byte. */
  lemma TargetReads(d: byte)
    ensures Reads(Str("0x" + Numeral(d, 16, true)), true, d) && IsToken("0x" + Numeral(d, 16, true))
  {
    HexTextReadsBack(Numeral(d, 16, true), d);
  }

  /** The placeholder "0" of the short forms: an immediate 0. */
  lemma ZeroReads()
    ensures Reads(Str("0"), true, 0) && IsToken("0")
  {
    ZeroOperand(map[]);
    WordTextIsToken("0");
  }

  /** WRT's `0b` format field reads back as the format. */
  lemma FormatReads(fmt: nat)
    requires fmt < 4
    ensures var t := "0b" + PadTwo(Numeral(fmt, 2, false));
      Reads(Str(t), true, fmt) && IsToken(t)
  {
    var p := PadTwo(Numeral(fmt, 2, false));
    PaddedFormatDigits(fmt);
    BinTextReads(p, fmt);
    BinTextIsToken(p);
  }

  /** The format padded to two binary digits keeps its value. */
  lemma PaddedFormatDigits(fmt: nat)
    requires fmt < 4
    ensures var p := PadTwo(Numeral(fmt, 2, false));
      |p| == 2 && (forall i :: 0 <= i < |p| ==> IsDigitIn(p[i], 2)) && DigitsValue(p, 2) == fmt
  {
    var hi, lo := DigitChar(fmt / 2, false), DigitChar(fmt % 2, false);
    assert PadTwo(Numeral(fmt, 2, false)) == [hi, lo] by {
      FormatNumeral(fmt);
    }
    TwoBinaryDigitsValue(hi, lo);
  }

  lemma FormatNumeral(fmt: nat)
    requires fmt < 4
    ensures Numeral(fmt, 2, false) == if fmt < 2 then [DigitChar(fmt, false)] else [DigitChar(1, false), DigitChar(fmt % 2, false)]
  {
  }

  lemma TwoBinaryDigitsValue(hi: char, lo: char)
    ensures DigitsValue([hi, lo], 2) == DigitValue(hi) * 2 + DigitValue(lo)
  {
    assert [hi, lo][..1] == [hi];
    assert DigitsValue([hi], 2) == DigitValue(hi) by {
      assert [hi][..0] == [];
    }
  }

  lemma BinTextReads(b: string, d: byte)
    requires b != [] && forall i :: 0 <= i < |b| ==> IsDigitIn(b[i], 2)
    requires DigitsValue(b, 2) == d
    ensures Reads(Str("0b" + b), true, d)
  {
    BinTextParses(b, d);
    assert ("0b" + b)[0] == '0';
    ParsedReads("0b" + b, d);
  }

  lemma BinTextIsToken(b: string)
    requires b != [] && forall i :: 0 <= i < |b| ==> IsDigitIn(b[i], 2)
    ensures IsToken("0b" + b)
  {
    NumeralIsWordText("0b", b, 2);
    WordTextIsToken("0b" + b);
  }

  /** `0b` and binary digits whose value is a byte: parseValue reads that byte. */
  lemma BinTextParses(b: string, d: byte)
    requires b != [] && forall i :: 0 <= i < |b| ==> IsDigitIn(b[i], 2)
    requires DigitsValue(b, 2) == d
    ensures ParseValue(Str("0b" + b), map[]) == Ok(d)
  {
    assert ParseValue(Str("0b" + b), map[]) == Ok(ParseIntByte(b, 2)) by {
      BinLiteralShape(b);
    }
    JsParseIntOfDigits(b, 2);
    ParsedByte(b, 2, d);
  }

  /** `0b` and text ending in a binary digit: nothing to trim, no `0x`, and the text follows the prefix. */
  lemma BinLiteralShape(b: string)
    requires b != [] && IsDigitIn(b[|b| - 1], 2)
    ensures JsTrim("0b" + b) == "0b" + b
    ensures StartsWith("0b" + b, "0b") && !StartsWith("0b" + b, "0x") && ("0b" + b)[2..] == b
    ensures !IsCharLiteral("0b" + b)
  {
    var t := "0b" + b;
    assert t[0] == '0' && t[|t| - 1] == b[|b| - 1];
    DigitIsNotSpace(t[0], 16);
    DigitIsNotSpace(t[|t| - 1], 2);
    TrimKeeps(t, IsJsSpace);
    assert t[..2] == "0b";
  }

  /** A WRT character shown as a quoted character: printable, and none of `"`, `,`, space or `;`. */
  predicate IsShownCharacter(c: byte) {
    32 < c <= 126 && c != 34 && c != 44 && c != 59
  }

  /** A quoted character reads back as its code. */
  lemma QuotedCharacterReads(c: byte)
    requires IsShownCharacter(c)
    ensures var t := "\"" + [c as char] + "\"";
      Reads(Str(t), true, c) && IsToken(t)
  {
    var ch := c as char;
    var t := ['"', ch, '"'];
    assert "\"" + [ch] + "\"" == t;
    assert ParseValue(Str(t), map[]) == Ok(c) by {
      QuotedParses(ch, c);
    }
    assert t != [] && t !in Registers && !IsUppercaseRegisterName(t) by {
      assert t[0] == '"';
    }
    NoRegisterReads(t, c);
    assert IsToken(t) by {
      assert !IsJsSpace(ch) && ch != ';' && ch != ',';
      QuotedIsToken(ch);
    }
  }

  lemma QuotedParses(ch: char, c: byte)
    requires ch == c as char && !IsJsLineTerminator(ch)
    ensures ParseValue(Str(['"', ch, '"']), map[]) == Ok(c)
  {
    CharLiteralReadsBack('"', ch, map[]);
    ByteIsItsResidue(c);
  }

  lemma QuotedIsToken(ch: char)
    requires !IsJsSpace(ch) && ch != ';' && ch != ','
    ensures IsToken(['"', ch, '"'])
  {
    var t := ['"', ch, '"'];
    assert NoSeparator(t, IsJsSpace) by {
      assert forall i :: 0 <= i < 3 ==> t[i] == '"' || t[i] == ch;
    }
    assert !StartsWith(t, "$") by {
      assert t[..1][0] == '"';
    }
  }

  /**
   * The WRT operand reads back as the byte shown, except the quoted `;`,
   * which the first pass takes for the start of a comment.
   */
  lemma WrtOperandReads(op1: byte, imm: bool, fmt: nat)
    requires fmt < 4 && !(imm && fmt == 0 && op1 == 59)
    ensures var t := WrtOperandText(op1, imm, fmt);
      Reads(Str(t), imm, if imm then op1 else op1 % 8) && IsToken(t)
  {
    var t := WrtOperandText(op1, imm, fmt);
    if !imm {
      assert t == OperandText(op1, false);
      OperandTextReads(op1, false);
    } else if fmt == 0 && op1 == 0 {
      assert t == OperandText(0, true);
      OperandTextReads(0, true);
    } else if fmt == 0 && !(op1 < 32 || op1 > 126 || op1 == 34 || op1 == 44 || op1 == 32) {
      assert t == "\"" + [op1 as char] + "\"";
      QuotedCharacterReads(op1);
    } else if fmt == 1 || fmt == 2 {
      assert t == Decimal(op1);
      DecimalTextReads(op1);
    } else {
      assert t == OperandText(op1, true);
      OperandTextReads(op1, true);
    }
  }

  /** The decimal numeral of a byte: an immediate, read back as the byte. */
  lemma DecimalTextReads(v: byte)
    ensures Reads(Str(Decimal(v)), true, v) && IsToken(Decimal(v))
  {
    DecimalReads(v);
    DecimalIsToken(v);
  }

  lemma DecimalReads(v: byte)
    ensures Reads(Str(Decimal(v)), true, v)
  {
    DecimalParses(v);
    ParsedReads(Decimal(v), v);
  }

  lemma DecimalParses(v: byte)
    ensures Decimal(v) != [] && IsDigit(Decimal(v)[0]) && ParseValue(Str(Decimal(v)), map[]) == Ok(v)
  {
    DecimalLeadsWithDigit(v);
    DecimalReadsBack(v, map[]);
    ByteIsItsResidue(v);
  }

  lemma DecimalLeadsWithDigit(n: nat)
    ensures Decimal(n) != [] && IsDigit(Decimal(n)[0])
  {
    DecimalIsDigits(n);
  }

  lemma DecimalIsToken(v: byte)
    ensures IsToken(Decimal(v))
  {
    NumeralIsWordText([], Decimal(v), 10);
    assert [] + Decimal(v) == Decimal(v);
    WordTextIsToken(Decimal(v));
  }

  // ---- operand shapes encode ----

  /** The word of the table's class and subtype for mnemonic op, with the two flags and three operand bytes. */
  function WordOf(op: string, imm1: bool, imm2: bool, v1: byte, v2: byte, v3: byte): Word
    requires op in Opcodes
  {
    Word(OpcodeByte(imm1, imm2, Opcodes[op].0, Opcodes[op].1), v1, v2, v3)
  }

  /** Operand tokens that read without tables as the two flags and three bytes. */
  predicate SlotsRead(args: seq<string>, imm1: bool, imm2: bool, v1: byte, v2: byte, v3: byte) {
    (forall k :: 0 <= k < |args| ==> IsToken(args[k]))
    && Reads(ArgAt(args, 0), imm1, v1) && Reads(ArgAt(args, 1), imm2, v2)
    && EncodeOperand(ArgAt(args, 2), map[]) == Ok(v3)
  }

  /** Slots that read without tables encode into the word of their flags and bytes. */
  lemma SlotsEncode(op: string, operands: seq<string>, args: seq<string>, imm1: bool, imm2: bool, v1: byte, v2: byte, v3: byte)
    requires op in Opcodes && HandleShorthand(op, operands) == args
    requires SlotsRead(args, imm1, imm2, v1, v2, v3)
    ensures EncodesTo(op, operands, WordOf(op, imm1, imm2, v1, v2, v3))
  {
    EncodeOpcodeOfFlags(op, ArgAt(args, 0), ArgAt(args, 1), imm1, imm2);
    EncodeWordOfParts(op, ArgAt(args, 0), ArgAt(args, 1), ArgAt(args, 2), map[], WordOf(op, imm1, imm2, v1, v2, v3));
  }

  /** A missing slot: the immediate flag clear, encoded as 0. */
  lemma UndefinedReads()
    ensures Reads(Undefined, false, 0)
  {
  }

  /** Three operands are taken as they are. */
  lemma ThreeOperandsEncode(op: string, x: string, y: string, z: string, imm1: bool, imm2: bool, v1: byte, v2: byte, v3: byte)
    requires op in Opcodes && op != "HCF"
    requires IsToken(x) && IsToken(y) && IsToken(z)
    requires Reads(Str(x), imm1, v1) && Reads(Str(y), imm2, v2) && EncodeOperand(Str(z), map[]) == Ok(v3)
    ensures EncodesTo(op, [x, y, z], WordOf(op, imm1, imm2, v1, v2, v3))
  {
    var args := [x, y, z];
    assert HandleShorthand(op, args) == args;
    ThreeSlotsRead(x, y, z, imm1, imm2, v1, v2, v3);
    SlotsEncode(op, args, args, imm1, imm2, v1, v2, v3);
  }

  lemma ThreeSlotsRead(x: string, y: string, z: string, imm1: bool, imm2: bool, v1: byte, v2: byte, v3: byte)
    requires IsToken(x) && IsToken(y) && IsToken(z)
    requires Reads(Str(x), imm1, v1) && Reads(Str(y), imm2, v2) && EncodeOperand(Str(z), map[]) == Ok(v3)
    ensures SlotsRead([x, y, z], imm1, imm2, v1, v2, v3)
  {
    var args := [x, y, z];
    assert ArgAt(args, 0) == Str(x) && ArgAt(args, 1) == Str(y) && ArgAt(args, 2) == Str(z);
    ThreeTokens(x, y, z);
  }

  lemma ThreeTokens(x: string, y: string, z: string)
    requires IsToken(x) && IsToken(y) && IsToken(z)
    ensures forall k :: 0 <= k < 3 ==> IsToken([x, y, z][k])
  {
    var args := [x, y, z];
    forall k | 0 <= k < 3
      ensures IsToken(args[k])
    {
      assert args[k] == if k == 0 then x else if k == 1 then y else z;
    }
  }

  /** Two operands of NOT or SWAP: the second fills the second source, the destination is missing. */
  lemma TwoOperandsEncode(op: string, x: string, y: string, imm1: bool, imm2: bool, v1: byte, v2: byte)
    requires op == "NOT" || op == "SWAP"
    requires IsToken(x) && IsToken(y) && Reads(Str(x), imm1, v1) && Reads(Str(y), imm2, v2)
    ensures EncodesTo(op, [x, y], WordOf(op, imm1, imm2, v1, v2, 0))
  {
    var args := [x, y];
    assert op in Opcodes && HandleShorthand(op, args) == args by {
      KeptByShorthand(op, args);
    }
    assert SlotsRead(args, imm1, imm2, v1, v2, 0) by {
      TwoSlotsRead(x, y, imm1, imm2, v1, v2);
    }
    SlotsEncode(op, args, args, imm1, imm2, v1, v2, 0);
  }

  /** NOT and SWAP have no shorthand: their operands reach the slots as written. */
  lemma KeptByShorthand(op: string, args: seq<string>)
    requires op == "NOT" || op == "SWAP"
    ensures op in Opcodes && HandleShorthand(op, args) == args
  {
  }

  /** MOV's two operands: the source and the destination, with "0" between them. */
  lemma MovOperandsEncode(x: string, y: string, imm1: bool, v1: byte, v3: byte)
    requires IsToken(x) && IsToken(y) && Reads(Str(x), imm1, v1) && EncodeOperand(Str(y), map[]) == Ok(v3)
    ensures EncodesTo("MOV", [x, y], WordOf("MOV", imm1, true, v1, 0, v3))
  {
    var args := [x, "0", y];
    assert HandleShorthand("MOV", [x, y]) == args;
    ZeroReads();
    ThreeSlotsRead(x, "0", y, imm1, true, v1, 0, v3);
    SlotsEncode("MOV", [x, y], args, imm1, true, v1, 0, v3);
  }

  /** WRT's two operands: the value and the format, with "0" as the destination. */
  lemma WrtOperandsEncode(x: string, y: string, imm1: bool, v1: byte, v2: byte)
    requires IsToken(x) && IsToken(y) && Reads(Str(x), imm1, v1) && Reads(Str(y), true, v2)
    ensures EncodesTo("WRT", [x, y], WordOf("WRT", imm1, true, v1, v2, 0))
  {
    var args := [x, y, "0"];
    assert HandleShorthand("WRT", [x, y]) == args by {
      assert [x, y] + ["0"] == args;
    }
    ZeroReads();
    ThreeSlotsRead(x, y, "0", imm1, true, v1, v2, 0);
    SlotsEncode("WRT", [x, y], args, imm1, true, v1, v2, 0);
  }

  /** PUSH and CALL's one operand is the source; "0" fills the other two slots. */
  lemma SourceOperandEncodes(op: string, x: string, imm1: bool, v1: byte)
    requires op == "PUSH" || op == "CALL"
    requires IsToken(x) && Reads(Str(x), imm1, v1)
    ensures EncodesTo(op, [x], WordOf(op, imm1, true, v1, 0, 0))
  {
    var args := [x, "0", "0"];
    assert HandleShorthand(op, [x]) == args;
    ZeroReads();
    ThreeSlotsRead(x, "0", "0", imm1, true, v1, 0, 0);
    SlotsEncode(op, [x], args, imm1, true, v1, 0, 0);
  }

  /** POP and JMP's one operand is the destination; "0" fills both sources. */
  lemma DestOperandEncodes(op: string, z: string, v3: byte)
    requires op == "POP" || op == "JMP"
    requires IsToken(z) && EncodeOperand(Str(z), map[]) == Ok(v3)
    ensures EncodesTo(op, [z], WordOf(op, true, true, 0, 0, v3))
  {
    var args := ["0", "0", z];
    assert HandleShorthand(op, [z]) == args;
    ZeroReads();
    ThreeSlotsRead("0", "0", z, true, true, 0, 0, v3);
    SlotsEncode(op, [z], args, true, true, 0, 0, v3);
  }

  /** NOP and JRE without operands: every slot is missing. */
  lemma NoOperandsEncode(op: string)
    requires op == "NOP" || op == "JRE"
    ensures EncodesTo(op, [], WordOf(op, false, false, 0, 0, 0))
  {
    var args: seq<string> := [];
    assert HandleShorthand(op, []) == args;
    UndefinedReads();
    SlotsEncode(op, [], args, false, false, 0, 0, 0);
  }

  /** HCF's operands are always three zeros. */
  lemma HaltEncodes()
    ensures EncodesTo("HCF", [], WordOf("HCF", true, true, 0, 0, 0))
  {
    var args := ["0", "0", "0"];
    ZeroReads();
    ThreeSlotsRead("0", "0", "0", true, true, 0, 0, 0);
    SlotsEncode("HCF", [], args, true, true, 0, 0, 0);
  }

  lemma TwoSlotsRead(x: string, y: string, imm1: bool, imm2: bool, v1: byte, v2: byte)
    requires IsToken(x) && IsToken(y) && Reads(Str(x), imm1, v1) && Reads(Str(y), imm2, v2)
    ensures SlotsRead([x, y], imm1, imm2, v1, v2, 0)
  {
    var args := [x, y];
    assert ArgAt(args, 0) == Str(x) && ArgAt(args, 1) == Str(y) && ArgAt(args, 2) == Undefined;
    UndefinedReads();
    assert forall k :: 0 <= k < 2 ==> IsToken(args[k]) by {
      assert args[0] == x && args[1] == y;
    }
  }

  // ---- a disassembled word reassembles ----

  /**
   * The word the listing of w assembles back into. Register operands keep
   * only their index (the listing shows `r${idx & 7}`); a short form gets the
   * flags and zeros the assembler fills in; NOT and SWAP lose their
   * destination, which the listing shows in the second operand's place.
   */
  function Reassembled(w: Word): (r: Word)
    requires OpClass(w.opcode) < 3
    ensures OpClass(r.opcode) == OpClass(w.opcode) && Subtype(r.opcode) == Subtype(w.opcode)
  {
    var c, sub, imm1, imm2 := OpClass(w.opcode), Subtype(w.opcode), Imm1(w.opcode), Imm2(w.opcode);
    var a := if imm1 then w.op1 else w.op1 % 8;
    var b := if imm2 then w.op2 else w.op2 % 8;
    if c == 0 then
      if sub == 7 then Word(OpcodeByte(imm1, false, Alu, 7), a, w.dest % 8, 0)
      else Word(OpcodeByte(imm1, imm2, Alu, sub), a, b, w.dest % 8)
    else if c == 1 then
      if sub == 0 then Word(OpcodeByte(true, true, Cond, 0), 0, 0, w.dest)
      else if sub == 4 then Word(OpcodeByte(false, false, Cond, 4), 0, 0, 0)
      else Word(OpcodeByte(imm1, imm2, Cond, sub), a, b, w.dest)
    else
      match sub
      case 0 => Word(OpcodeByte(imm1, true, Io, 0), a, 0, w.dest % 8)
      case 1 => Word(OpcodeByte(false, false, Io, 1), w.op1 % 8, w.dest % 8, 0)
      case 2 => Word(OpcodeByte(imm1, true, Io, 2), a, 0, 0)
      case 3 => Word(OpcodeByte(true, true, Io, 3), 0, 0, w.dest % 8)
      case 4 => Word(OpcodeByte(imm1, true, Io, 4), a, w.op2 % 4, 0)
      case 5 => Word(OpcodeByte(imm1, true, Io, 5), a, 0, 0)
      case 6 => Word(OpcodeByte(false, false, Io, 6), 0, 0, 0)
      case 7 => Word(OpcodeByte(true, true, Io, 7), 0, 0, 0)
  }

  /** A WRT of the immediate `;` in format 0, shown as a quoted `;`. */
  predicate IsSemicolonLiteral(w: Word) {
    OpClass(w.opcode) == 2 && Subtype(w.opcode) == 4 && Imm1(w.opcode) && w.op2 % 4 == 0 && w.op1 == 59
  }

  /** The operand texts of an ALU word are fields and encode into the reassembled word. */
  lemma AluOperandsEncode(w: Word)
    requires OpClass(w.opcode) == 0
    ensures var operands := Operands(w.opcode, w.op1, w.op2, w.dest);
      AllFields(operands) && EncodesTo(MnemonicOf(0, Subtype(w.opcode)), operands, Reassembled(w))
  {
    var sub, imm1, imm2 := Subtype(w.opcode), Imm1(w.opcode), Imm2(w.opcode);
    var op := MnemonicOf(0, sub);
    MnemonicsMatchOpcodeTable(0, sub);
    var x, y, z := OperandText(w.op1, imm1), OperandText(w.op2, imm2), RegName(w.dest);
    OperandTextReads(w.op1, imm1);
    OperandTextReads(w.dest, false);
    assert OperandText(w.dest, false) == z;
    if sub == 7 {
      assert Operands(w.opcode, w.op1, w.op2, w.dest) == [x, z];
      TwoOperandsEncode(op, x, z, imm1, false, if imm1 then w.op1 else w.op1 % 8, w.dest % 8);
      assert Reassembled(w) == WordOf(op, imm1, false, if imm1 then w.op1 else w.op1 % 8, w.dest % 8, 0);
      TwoFields(x, z);
    } else {
      assert Operands(w.opcode, w.op1, w.op2, w.dest) == [x, y, z];
      OperandTextReads(w.op2, imm2);
      ThreeOperandsEncode(op, x, y, z, imm1, imm2, if imm1 then w.op1 else w.op1 % 8, if imm2 then w.op2 else w.op2 % 8, w.dest % 8);
      assert Reassembled(w) == WordOf(op, imm1, imm2, if imm1 then w.op1 else w.op1 % 8, if imm2 then w.op2 else w.op2 % 8, w.dest % 8);
      ThreeFields(x, y, z);
    }
  }

  lemma OneField(x: string)
    requires IsToken(x)
    ensures AllFields([x])
  {
  }

  lemma TwoFields(x: string, y: string)
    requires IsToken(x) && IsToken(y)
    ensures AllFields([x, y])
  {
    var fs := [x, y];
    assert fs[0] == x && fs[1] == y;
  }

  lemma ThreeFields(x: string, y: string, z: string)
    requires IsToken(x) && IsToken(y) && IsToken(z)
    ensures AllFields([x, y, z])
  {
    ThreeTokens(x, y, z);
  }

  /** The operand texts of a branch word are fields and encode into the reassembled word. */
  lemma CondOperandsEncode(w: Word)
    requires OpClass(w.opcode) == 1
    ensures var operands := Operands(w.opcode, w.op1, w.op2, w.dest);
      AllFields(operands) && EncodesTo(MnemonicOf(1, Subtype(w.opcode)), operands, Reassembled(w))
  {
    var sub, imm1, imm2 := Subtype(w.opcode), Imm1(w.opcode), Imm2(w.opcode);
    var op := MnemonicOf(1, sub);
    MnemonicsMatchOpcodeTable(1, sub);
    if sub == 0 {
      var z := OperandText(w.dest, true);
      assert Operands(w.opcode, w.op1, w.op2, w.dest) == [z];
      OperandTextReads(w.dest, true);
      DestOperandEncodes(op, z, w.dest);
      assert Reassembled(w) == WordOf(op, true, true, 0, 0, w.dest);
    } else if sub == 4 {
      assert Operands(w.opcode, w.op1, w.op2, w.dest) == [];
      NoOperandsEncode(op);
      assert Reassembled(w) == WordOf(op, false, false, 0, 0, 0);
    } else {
      BranchOperandsEncode(w);
    }
  }

  /** A conditional branch shows both sources and its target. */
  lemma BranchOperandsEncode(w: Word)
    requires OpClass(w.opcode) == 1 && Subtype(w.opcode) != 0 && Subtype(w.opcode) != 4
    ensures var operands := Operands(w.opcode, w.op1, w.op2, w.dest);
      AllFields(operands) && EncodesTo(MnemonicOf(1, Subtype(w.opcode)), operands, Reassembled(w))
  {
    var sub, imm1, imm2 := Subtype(w.opcode), Imm1(w.opcode), Imm2(w.opcode);
    var op := MnemonicOf(1, sub);
    MnemonicsMatchOpcodeTable(1, sub);
    var x, y, z := OperandText(w.op1, imm1), OperandText(w.op2, imm2), "0x" + Numeral(w.dest, 16, true);
    assert Operands(w.opcode, w.op1, w.op2, w.dest) == [x, y, z];
    OperandTextReads(w.op1, imm1);
    OperandTextReads(w.op2, imm2);
    TargetReads(w.dest);
    ThreeOperandsEncode(op, x, y, z, imm1, imm2, if imm1 then w.op1 else w.op1 % 8, if imm2 then w.op2 else w.op2 % 8, w.dest);
    assert Reassembled(w) == WordOf(op, imm1, imm2, if imm1 then w.op1 else w.op1 % 8, if imm2 then w.op2 else w.op2 % 8, w.dest);
    ThreeFields(x, y, z);
  }

  /** The operand texts of an IO word other than WRT of a quoted `;` are fields and encode into the reassembled word. */
  lemma IoOperandsEncode(w: Word)
    requires OpClass(w.opcode) == 2 && !IsSemicolonLiteral(w)
    ensures var operands := Operands(w.opcode, w.op1, w.op2, w.dest);
      AllFields(operands) && EncodesTo(MnemonicOf(2, Subtype(w.opcode)), operands, Reassembled(w))
  {
    match Subtype(w.opcode)
    case 0 => MovListingEncodes(w);
    case 1 => SwapListingEncodes(w);
    case 2 => PushListingEncodes(w);
    case 3 => PopListingEncodes(w);
    case 4 => WrtListingEncodes(w);
    case 5 => CallListingEncodes(w);
    case 6 => BareListingEncodes(w);
    case 7 => BareListingEncodes(w);
  }

  /** MOV shows its source and destination register. */
  lemma MovListingEncodes(w: Word)
    requires OpClass(w.opcode) == 2 && Subtype(w.opcode) == 0
    ensures var operands := Operands(w.opcode, w.op1, w.op2, w.dest);
      AllFields(operands) && EncodesTo(MnemonicOf(2, 0), operands, Reassembled(w))
  {
    var imm1 := Imm1(w.opcode);
    var a := if imm1 then w.op1 else w.op1 % 8;
    var op := MnemonicOf(2, 0);
    assert op == "MOV";
    MnemonicsMatchOpcodeTable(2, 0);
    var x, z := OperandText(w.op1, imm1), RegName(w.dest);
    assert Operands(w.opcode, w.op1, w.op2, w.dest) == [x, z];
    OperandTextReads(w.op1, imm1);
    OperandTextReads(w.dest, false);
    assert OperandText(w.dest, false) == z;
    MovOperandsEncode(x, z, imm1, a, w.dest % 8);
    assert Reassembled(w) == WordOf(op, imm1, true, a, 0, w.dest % 8);
    TwoFields(x, z);
  }

  /** SWAP shows two registers; the second is read back as the second source. */
  lemma SwapListingEncodes(w: Word)
    requires OpClass(w.opcode) == 2 && Subtype(w.opcode) == 1
    ensures var operands := Operands(w.opcode, w.op1, w.op2, w.dest);
      AllFields(operands) && EncodesTo(MnemonicOf(2, 1), operands, Reassembled(w))
  {
    var imm1 := Imm1(w.opcode);
    var a := if imm1 then w.op1 else w.op1 % 8;
    var op := MnemonicOf(2, 1);
    assert op == "SWAP";
    MnemonicsMatchOpcodeTable(2, 1);
    var x, z := RegName(w.op1), RegName(w.dest);
    assert Operands(w.opcode, w.op1, w.op2, w.dest) == [x, z];
    OperandTextReads(w.op1, false);
    OperandTextReads(w.dest, false);
    assert OperandText(w.op1, false) == x && OperandText(w.dest, false) == z;
    TwoOperandsEncode(op, x, z, false, false, w.op1 % 8, w.dest % 8);
    assert Reassembled(w) == WordOf(op, false, false, w.op1 % 8, w.dest % 8, 0);
    TwoFields(x, z);
  }

  /** PUSH shows its source alone. */
  lemma PushListingEncodes(w: Word)
    requires OpClass(w.opcode) == 2 && Subtype(w.opcode) == 2
    ensures var operands := Operands(w.opcode, w.op1, w.op2, w.dest);
      AllFields(operands) && EncodesTo(MnemonicOf(2, 2), operands, Reassembled(w))
  {
    var imm1 := Imm1(w.opcode);
    var a := if imm1 then w.op1 else w.op1 % 8;
    var op := MnemonicOf(2, 2);
    assert op == "PUSH";
    MnemonicsMatchOpcodeTable(2, 2);
    var x := OperandText(w.op1, imm1);
    assert Operands(w.opcode, w.op1, w.op2, w.dest) == [x];
    OperandTextReads(w.op1, imm1);
    SourceOperandEncodes(op, x, imm1, a);
    assert Reassembled(w) == WordOf(op, imm1, true, a, 0, 0);
    OneField(x);
  }

  /** CALL shows its target alone. */
  lemma CallListingEncodes(w: Word)
    requires OpClass(w.opcode) == 2 && Subtype(w.opcode) == 5
    ensures var operands := Operands(w.opcode, w.op1, w.op2, w.dest);
      AllFields(operands) && EncodesTo(MnemonicOf(2, 5), operands, Reassembled(w))
  {
    var imm1 := Imm1(w.opcode);
    var a := if imm1 then w.op1 else w.op1 % 8;
    var op := MnemonicOf(2, 5);
    assert op == "CALL";
    MnemonicsMatchOpcodeTable(2, 5);
    var x := OperandText(w.op1, imm1);
    assert Operands(w.opcode, w.op1, w.op2, w.dest) == [x];
    OperandTextReads(w.op1, imm1);
    SourceOperandEncodes(op, x, imm1, a);
    assert Reassembled(w) == WordOf(op, imm1, true, a, 0, 0);
    OneField(x);
  }

  /** POP shows its destination register alone. */
  lemma PopListingEncodes(w: Word)
    requires OpClass(w.opcode) == 2 && Subtype(w.opcode) == 3
    ensures var operands := Operands(w.opcode, w.op1, w.op2, w.dest);
      AllFields(operands) && EncodesTo(MnemonicOf(2, 3), operands, Reassembled(w))
  {
    var imm1 := Imm1(w.opcode);
    var a := if imm1 then w.op1 else w.op1 % 8;
    var op := MnemonicOf(2, 3);
    assert op == "POP";
    MnemonicsMatchOpcodeTable(2, 3);
    var z := RegName(w.dest);
    assert Operands(w.opcode, w.op1, w.op2, w.dest) == [z];
    OperandTextReads(w.dest, false);
    assert OperandText(w.dest, false) == z;
    DestOperandEncodes(op, z, w.dest % 8);
    assert Reassembled(w) == WordOf(op, true, true, 0, 0, w.dest % 8);
    OneField(z);
  }

  /** WRT shows the value and the `0b` format. */
  lemma WrtListingEncodes(w: Word)
    requires OpClass(w.opcode) == 2 && Subtype(w.opcode) == 4 && !IsSemicolonLiteral(w)
    ensures var operands := Operands(w.opcode, w.op1, w.op2, w.dest);
      AllFields(operands) && EncodesTo(MnemonicOf(2, 4), operands, Reassembled(w))
  {
    var imm1 := Imm1(w.opcode);
    var a := if imm1 then w.op1 else w.op1 % 8;
    var op := MnemonicOf(2, 4);
    assert op == "WRT";
    MnemonicsMatchOpcodeTable(2, 4);
    var fmt := w.op2 % 4;
    var x, y := WrtOperandText(w.op1, imm1, fmt), "0b" + PadTwo(Numeral(fmt, 2, false));
    assert Operands(w.opcode, w.op1, w.op2, w.dest) == [x, y];
    WrtOperandReads(w.op1, imm1, fmt);
    FormatReads(fmt);
    WrtOperandsEncode(x, y, imm1, a, fmt);
    assert Reassembled(w) == WordOf(op, imm1, true, a, fmt, 0);
    TwoFields(x, y);
  }

  /** JRE and HCF show no operands. */
  lemma BareListingEncodes(w: Word)
    requires OpClass(w.opcode) == 2 && (Subtype(w.opcode) == 6 || Subtype(w.opcode) == 7)
    ensures var operands := Operands(w.opcode, w.op1, w.op2, w.dest);
      AllFields(operands) && EncodesTo(MnemonicOf(2, Subtype(w.opcode)), operands, Reassembled(w))
  {
    var sub := Subtype(w.opcode);
    MnemonicsMatchOpcodeTable(2, sub);
    assert Operands(w.opcode, w.op1, w.op2, w.dest) == [];
    if sub == 6 {
      NoOperandsEncode("JRE");
      assert Reassembled(w) == WordOf("JRE", false, false, 0, 0, 0);
    } else {
      HaltEncodes();
      assert Reassembled(w) == WordOf("HCF", true, true, 0, 0, 0);
    }
  }

  /** Every mnemonic is an upper-case word, and none is the `LABEL` directive. */
  lemma MnemonicIsUpperWord(c: nat, sub: Sub)
    requires c < 3
    ensures IsUpperWord(MnemonicOf(c, sub)) && MnemonicOf(c, sub) != "LABEL"
  {
    var op := MnemonicOf(c, sub);
    assert op in ["AND", "ROR", "ADD", "XOR", "OR", "ROL", "SUB", "NOT",
                  "JMP", "JNE", "JGE", "JGT", "NOP", "JEQ", "JLT", "JLE",
                  "MOV", "SWAP", "PUSH", "POP", "WRT", "CALL", "JRE", "HCF"];
  }

  /** The text after the operands is empty or a WRT comment. */
  lemma TrailerIsTrailer(opcode: byte, op2: byte)
    ensures IsTrailer(Trailer(opcode, op2))
  {
    if OpClass(opcode) == 2 && Subtype(opcode) == 4 {
      var comment := WrtComment(Imm1(opcode), op2 % 4);
      assert comment[0] == ';';
      assert (" " + comment)[..2] == " ;";
    }
  }

  /**
   * A disassembled word of class 0, 1 or 2, as a one-line program, assembles
   * into its reassembled word: the opcode's class and subtype come back, so
   * does every operand the listing shows. The one listing that fails is WRT
   * of the immediate `;`, quoted, which the first pass cuts as a comment.
   */
  lemma DisassemblyReassembles(w: Word)
    requires OpClass(w.opcode) < 3 && !IsSemicolonLiteral(w)
    ensures var r := Reassembled(w);
      Assemble([Disassemble(w.opcode, w.op1, w.op2, w.dest)]) == Ok(Assembled([r], HexDump(Flatten([r])), map[0 := 0]))
  {
    var c, sub := OpClass(w.opcode), Subtype(w.opcode);
    var op, operands, trailer := MnemonicOf(c, sub), Operands(w.opcode, w.op1, w.op2, w.dest), Trailer(w.opcode, w.op2);
    assert Disassemble(w.opcode, w.op1, w.op2, w.dest) == Listing(op, operands) + trailer;
    assert AllFields(operands) && EncodesTo(op, operands, Reassembled(w)) by {
      if c == 0 {
        AluOperandsEncode(w);
      } else if c == 1 {
        CondOperandsEncode(w);
      } else {
        IoOperandsEncode(w);
      }
    }
    MnemonicIsUpperWord(c, sub);
    TrailerIsTrailer(w.opcode, w.op2);
    ListingAssembles(op, operands, trailer, Reassembled(w));
  }

  // ---- the reassembled word shows the same listing ----

  /** NOT and SWAP: the listing's last operand is read back into the second source, not the destination. */
  predicate DropsDestination(w: Word) {
    (OpClass(w.opcode) == 0 && Subtype(w.opcode) == 7) || (OpClass(w.opcode) == 2 && Subtype(w.opcode) == 1)
  }

  /** The word whose listing the reassembled word shows: w, with the destination cleared for NOT and SWAP. */
  function Shown(w: Word): Word {
    if DropsDestination(w) then w.(dest := 0) else w
  }

  /**
   * Disassembling the reassembled word gives the listing back, except that
   * NOT and SWAP show `r0` where the original showed its destination.
   */
  lemma ReassemblyKeepsListing(w: Word)
    requires OpClass(w.opcode) < 3
    ensures var r, v := Reassembled(w), Shown(w);
      Disassemble(r.opcode, r.op1, r.op2, r.dest) == Disassemble(v.opcode, v.op1, v.op2, v.dest)
  {
    var r, v := Reassembled(w), Shown(w);
    assert Operands(r.opcode, r.op1, r.op2, r.dest) == Operands(v.opcode, v.op1, v.op2, v.dest) by {
      var c := OpClass(w.opcode);
      if c == 0 {
        AluShownAgain(w);
      } else if c == 1 {
        CondShownAgain(w);
      } else {
        IoShownAgain(w);
      }
    }
    assert Trailer(r.opcode, r.op2) == Trailer(v.opcode, v.op2) by {
      TrailerShownAgain(w);
    }
  }

  /** A register operand read back keeps its index, so it shows the same name. */
  lemma OperandShownAgain(b: byte, imm: bool)
    ensures OperandText(if imm then b else b % 8, imm) == OperandText(b, imm)
  {
  }

  lemma AluShownAgain(w: Word)
    requires OpClass(w.opcode) == 0
    ensures var r, v := Reassembled(w), Shown(w);
      Operands(r.opcode, r.op1, r.op2, r.dest) == Operands(v.opcode, v.op1, v.op2, v.dest)
  {
    var imm1, imm2 := Imm1(w.opcode), Imm2(w.opcode);
    OperandShownAgain(w.op1, imm1);
    OperandShownAgain(w.op2, imm2);
    OperandShownAgain(w.dest, false);
    OperandShownAgain(0, false);
  }

  lemma CondShownAgain(w: Word)
    requires OpClass(w.opcode) == 1
    ensures var r, v := Reassembled(w), Shown(w);
      Operands(r.opcode, r.op1, r.op2, r.dest) == Operands(v.opcode, v.op1, v.op2, v.dest)
  {
    var imm1, imm2 := Imm1(w.opcode), Imm2(w.opcode);
    OperandShownAgain(w.op1, imm1);
    OperandShownAgain(w.op2, imm2);
  }

  lemma IoShownAgain(w: Word)
    requires OpClass(w.opcode) == 2
    ensures var r, v := Reassembled(w), Shown(w);
      Operands(r.opcode, r.op1, r.op2, r.dest) == Operands(v.opcode, v.op1, v.op2, v.dest)
  {
    var imm1 := Imm1(w.opcode);
    match Subtype(w.opcode)
    case 0 =>
      OperandShownAgain(w.op1, imm1);
      OperandShownAgain(w.dest, false);
    case 1 =>
      OperandShownAgain(w.op1, false);
      OperandShownAgain(0, false);
    case 2 =>
      OperandShownAgain(w.op1, imm1);
    case 3 =>
      OperandShownAgain(w.dest, false);
    case 4 =>
      WrtShownAgain(w);
    case 5 =>
      OperandShownAgain(w.op1, imm1);
    case 6 =>
    case 7 =>
  }

  lemma WrtShownAgain(w: Word)
    requires OpClass(w.opcode) == 2 && Subtype(w.opcode) == 4
    ensures var r := Reassembled(w);
      Operands(r.opcode, r.op1, r.op2, r.dest) == Operands(w.opcode, w.op1, w.op2, w.dest)
  {
    var imm1, fmt := Imm1(w.opcode), w.op2 % 4;
    var r := Reassembled(w);
    assert r.op2 % 4 == fmt;
    assert WrtOperandText(r.op1, imm1, fmt) == WrtOperandText(w.op1, imm1, fmt) by {
      OperandShownAgain(w.op1, false);
    }
  }

  lemma TrailerShownAgain(w: Word)
    requires OpClass(w.opcode) < 3
    ensures var r, v := Reassembled(w), Shown(w);
      Trailer(r.opcode, r.op2) == Trailer(v.opcode, v.op2)
  {
  }

  /**
   * A second disassemble-and-assemble gives what the first gave for the
   * listing's own word: the same word, except for NOT and SWAP, whose second
   * source, read from the destination the first listing showed, becomes r0.
   */
  lemma ReassembledIsStable(w: Word)
    requires OpClass(w.opcode) < 3
    ensures Reassembled(Reassembled(w)) == Reassembled(Shown(w))
    ensures !DropsDestination(w) ==> Reassembled(Reassembled(w)) == Reassembled(w)
  {
    assert w.op1 % 8 % 8 == w.op1 % 8 && w.op2 % 8 % 8 == w.op2 % 8 && w.dest % 8 % 8 == w.dest % 8;
    var c := OpClass(w.opcode);
    if c == 0 {
      AluStable(w);
    } else if c == 1 {
      CondStable(w);
    } else {
      IoStable(w);
    }
  }

  lemma AluStable(w: Word)
    requires OpClass(w.opcode) == 0
    requires w.op1 % 8 % 8 == w.op1 % 8 && w.op2 % 8 % 8 == w.op2 % 8 && w.dest % 8 % 8 == w.dest % 8
    ensures Reassembled(Reassembled(w)) == Reassembled(Shown(w))
  {
  }

  lemma CondStable(w: Word)
    requires OpClass(w.opcode) == 1
    requires w.op1 % 8 % 8 == w.op1 % 8 && w.op2 % 8 % 8 == w.op2 % 8
    ensures Reassembled(Reassembled(w)) == Reassembled(Shown(w))
  {
  }

  lemma IoStable(w: Word)
    requires OpClass(w.opcode) == 2
    requires w.op1 % 8 % 8 == w.op1 % 8 && w.dest % 8 % 8 == w.dest % 8
    ensures Reassembled(Reassembled(w)) == Reassembled(Shown(w))
  {
    if Subtype(w.opcode) == 4 {
      assert w.op2 % 4 % 4 == w.op2 % 4;
    }
  }

  // ---- the quoted `;` ----

  /** The listing of WRT of the immediate `;` in format 0: the quoted `;`, the format and the comment. */
  lemma SemicolonListing(w: Word)
    requires IsSemicolonLiteral(w)
    ensures Disassemble(w.opcode, w.op1, w.op2, w.dest) == Listing("WRT", ["\";\"", "0b00"]) + " ; UTF-8"
  {
    var fmt := w.op2 % 4;
    assert fmt == 0;
    assert WrtOperandText(w.op1, true, fmt) == "\";\"" by {
      assert w.op1 as char == ';';
    }
    assert "0b" + PadTwo(Numeral(fmt, 2, false)) == "0b00" by {
      assert Numeral(0, 2, false) == "0";
    }
    assert Operands(w.opcode, w.op1, w.op2, w.dest) == ["\";\"", "0b00"];
    assert Trailer(w.opcode, w.op2) == " ; UTF-8";
    assert MnemonicOf(2, 4) == "WRT";
  }

  /** The first `;` of that line is the quoted one: before it stands `WRT "`. */
  lemma SemicolonCutPoint()
    ensures Listing("WRT", ["\";\"", "0b00"]) + " ; UTF-8" == Listing("WRT", ["\""]) + ";\", 0b00 ; UTF-8"
  {
    SemicolonLine();
    QuoteLine();
  }

  lemma SemicolonLine()
    ensures Listing("WRT", ["\";\"", "0b00"]) == "WRT \";\", 0b00"
  {
    var fields, seps := ["WRT", "\";\"", "0b00"], [" ", ", "];
    assert ListingSeparators(2) == seps;
    assert ["WRT"] + ["\";\"", "0b00"] == fields;
    assert fields[1..] == ["\";\"", "0b00"] && seps[1..] == [", "];
    assert Interleave(fields[1..], seps[1..]) == "\";\"" + (", " + "0b00") by {
      assert fields[1..][1..] == ["0b00"] && seps[1..][1..] == [];
    }
  }

  lemma QuoteLine()
    ensures Listing("WRT", ["\""]) == "WRT \""
  {
    var fields, seps := ["WRT", "\""], [" "];
    assert ListingSeparators(1) == seps;
    assert ["WRT"] + ["\""] == fields;
    assert fields[1..] == ["\""] && seps[1..] == [];
  }

  /** A lone `"` is no value parseValue knows. */
  lemma QuoteDoesNotEncode(op: string, q: string)
    requires op in Opcodes && q == ['"']
    ensures EncodeWord(op, Str(q), Str("0"), Str("0"), map[]) == Err(UnknownValue(q))
  {
    assert EncodeOperand(Str(q), map[]) == Err(UnknownValue(q)) by {
      QuoteIsUnknown(q);
    }
    ZeroReads();
    EncodeOpcodeOfFlags(op, Str(q), Str("0"), true, true);
  }

  lemma QuoteIsUnknown(q: string)
    requires q == ['"']
    ensures ImmediateFlag(Str(q)) == Ok(true) && EncodeOperand(Str(q), map[]) == Err(UnknownValue(q))
  {
    QuoteDoesNotParse(q, map[]);
    assert !IsUppercaseRegisterName(q) && q !in Registers;
  }

  lemma QuoteDoesNotParse(q: string, constants: map<string, Constant>)
    requires q == ['"'] && q !in constants
    ensures ParseValue(Str(q), constants) == Err(UnknownValue(q))
  {
    assert JsTrim(q) == q by {
      TrimKeeps(q, IsJsSpace);
    }
  }

  /** The quoted `;` line, cleaned: `WRT "`. */
  lemma SemicolonLineCleans(w: Word)
    requires IsSemicolonLiteral(w)
    ensures CleanLine([Disassemble(w.opcode, w.op1, w.op2, w.dest)], 0) == Listing("WRT", ["\""])
  {
    var text := Listing("WRT", ["\""]);
    SemicolonListing(w);
    SemicolonCutPoint();
    QuoteLine();
    assert BeforeSemicolon(text + ";\", 0b00 ; UTF-8") == text by {
      BeforeSemicolonAppend(text, ";\", 0b00 ; UTF-8");
      assert text + [] == text;
    }
    assert JsTrim(text) == text by {
      TrimKeeps(text, IsJsSpace);
    }
  }

  /** The second pass stops at `WRT "` with the unknown value `"`, on line 1. */
  lemma QuoteLineFails()
    ensures var st := InitialPass2(map[]);
      SecondPassFrom([Queued(Listing("WRT", ["\""]), 0)], 0, st) == Err(LineError(1, Encoding(UnknownValue("\""))))
  {
    var st := InitialPass2(map[]);
    QuoteLineFailsWith("\"", st);
  }

  lemma QuoteLineFailsWith(q: string, st: Pass2)
    requires q == ['"'] && st == InitialPass2(map[])
    ensures SecondPassFrom([Queued(Listing("WRT", [q]), 0)], 0, st) == Err(LineError(1, Encoding(UnknownValue(q))))
  {
    assert IsUpperWord("WRT") && "WRT" != "LABEL" && "WRT" in Opcodes;
    assert HandleShorthand("WRT", [q]) == [q, "0", "0"];
    QuoteInstructionFails("WRT", q, st);
  }

  /** A mnemonic whose shorthand pads a lone `"` with two zeros stops at that `"`. */
  lemma QuoteInstructionFails(op: string, q: string, st: Pass2)
    requires IsUpperWord(op) && op != "LABEL" && op in Opcodes && HandleShorthand(op, [q]) == [q, "0", "0"]
    requires q == ['"'] && st == InitialPass2(map[])
    ensures SecondPassFrom([Queued(Listing(op, [q]), 0)], 0, st) == Err(LineError(1, Encoding(UnknownValue(q))))
  {
    assert IsField(q);
    assert AssembleLine(Queued(Listing(op, [q]), 0), st) == AssembleInstruction(0, op, [q], st) by {
      ListingLineIsInstruction(op, [q], 0, st);
    }
    var args := [q, "0", "0"];
    assert ResolveSlots([ArgAt(args, 0), ArgAt(args, 1), ArgAt(args, 2)], 0, st) == ([Str(q), Str("0"), Str("0")], []) by {
      QuoteSlotsResolve(q, st);
    }
    QuoteDoesNotEncode(op, q);
  }

  lemma QuoteSlotsResolve(q: string, st: Pass2)
    requires q == ['"'] && NoTables(st)
    ensures var args := [q, "0", "0"];
      ResolveSlots([ArgAt(args, 0), ArgAt(args, 1), ArgAt(args, 2)], 0, st) == ([Str(q), Str("0"), Str("0")], st.unresolved)
  {
    var args := [q, "0", "0"];
    assert IsToken(q) by {
      assert IsField(q);
      assert q[..1][0] == '"';
    }
    ZeroReads();
    ThreeTokens(q, "0", "0");
    SlotsResolveToThemselves(args, st);
    assert [ArgAt(args, 0), ArgAt(args, 1), ArgAt(args, 2)] == [Str(q), Str("0"), Str("0")];
  }

  /**
   * WRT of the immediate `;` in format 0 is listed as `WRT ";", 0b00 ; UTF-8`,
   * whose `;` the first pass takes for the start of a comment: what is left,
   * `WRT "`, does not assemble.
   */
  lemma SemicolonLiteralDoesNotReassemble(w: Word)
    requires IsSemicolonLiteral(w)
    ensures Assemble([Disassemble(w.opcode, w.op1, w.op2, w.dest)]) == Err(LineError(1, Encoding(UnknownValue("\""))))
  {
    var raw := Disassemble(w.opcode, w.op1, w.op2, w.dest);
    var text := Listing("WRT", ["\""]);
    assert FirstPassFrom([raw], 0, map[], []) == Ok((map[], [Queued(text, 0)])) by {
      SemicolonLineQueued(w);
    }
    assert SecondPassFrom([Queued(text, 0)], 0, InitialPass2(map[])) == Err(LineError(1, Encoding(UnknownValue("\"")))) by {
      QuoteLineFails();
    }
  }

  /** The first pass queues the quoted `;` line as `WRT "`. */
  lemma SemicolonLineQueued(w: Word)
    requires IsSemicolonLiteral(w)
    ensures FirstPassFrom([Disassemble(w.opcode, w.op1, w.op2, w.dest)], 0, map[], []) == Ok((map[], [Queued(Listing("WRT", ["\""]), 0)]))
  {
    var raw, text := Disassemble(w.opcode, w.op1, w.op2, w.dest), Listing("WRT", ["\""]);
    assert CleanLine([raw], 0) == text by {
      SemicolonLineCleans(w);
    }
    assert text != [] && MatchDefine(text).None? by {
      QuoteIsNoDefine();
    }
    OneLineQueued(raw, text);
  }

  lemma QuoteIsNoDefine()
    ensures Listing("WRT", ["\""]) != [] && MatchDefine(Listing("WRT", ["\""])).None?
  {
    QuoteLine();
    ListingIsNoDefine("WRT", ["\""]);
  }
}
