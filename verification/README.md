# Mini-8 in Dafny

Mini-8 is an 8-bit virtual machine with a 4-byte instruction word
(`opcode, op1, op2, dest`). It has eight registers (r6 reserved, r7 the
program counter), 256 bytes of RAM reached through the r4/r5 pair, an
unbounded stack, and a `WRT` instruction that prints one character. The
repository implements the machine and its assembler twice:

- in JavaScript for the web editor: the VM class with a disassembler, and
  the assembler `assembleFromLines`;
- in Python for the command line: the `MiniMachineVM` class and `assemble`.

This project models all four implementations over one shared instruction
set and proves properties of each. The two versions are different machines
in several places, and the model keeps them apart.

Modules, one per file:

| module | file | what it holds |
|---|---|---|
| `Wrappers` | wrappers.dfy | `Option` and `Result` |
| `Isa` | isa.dfy | bytes, the instruction word, opcode field decoding, the opcode and register tables, opcode packing, instruction fetch |
| `Bits` | bits.dfy | AND/OR/XOR/NOT and the two rotations on bytes |
| `Alu` | alu.dfy | the ALU result for each subtype, the branch conditions, the signed reading of r0 |
| `Text` | text.dfy | the string operations the assemblers use: trimming, `;` comments, `name:` prefixes, splitting on `[,\s]+`, upper-casing, JavaScript `parseInt`, Python `int`, decimal and hex numerals |
| `WebVm` | web_vm.dfy | web machine state: a `State` datatype whose members are the transition functions, and the class `MiniMachineVM`, whose methods update arrays in place and are proved equal to those functions |
| `WebVmProps` | web_vm_props.dfy | lemmas about the web machine |
| `WebDisassembler` | web_disasm.dfy | the web disassembler |
| `WebAssembler` | web_assembler.dfy | the web assembler: pure pass functions plus the loop methods proved equal to them |
| `WebAssemblerProps` | web_assembler_props.dfy | operand round trips, label patching, the hex dump |
| `WebRoundTrip` | web_roundtrip.dfy | the web assembler reading back what the web disassembler prints |
| `PyVm` | py_vm.dfy | Python machine state and class, in the same pattern as the web machine |
| `PyVmProps` | py_vm_props.dfy | lemmas about the Python machine |
| `PyAssembler` | py_assembler.dfy | the Python assembler: first pass, macro expansion, second pass, and loop methods |
| `PyAssemblerProps` | py_assembler_props.dfy | literal round trips, label operands, macro expansion |
| `Scenarios` | scenarios.dfy | three small programs run to completion on the Python machine |

How the two machines differ (each difference is stated by a lemma):

- **r5.** In the web machine, r5 read as a register operand is the RAM cell
  addressed by r4, and writing r5 writes that cell. Writing r4 reloads the
  stored r5 from RAM. The Python machine has no RAM window: r4 and r5 are
  plain registers (`NoRamWindow`).
- **Return address.** Web `CALL` pushes the address of the `CALL` itself,
  so `POP PC` (which advances afterwards) returns to the next instruction
  (`CallThenPopPcReturns`). Python `CALL` pushes PC+1, so the same return
  lands two instructions after the `CALL`. `CallThenPopPcSkipsOne` and the
  `ReturnSkipsInstructionAfterCall` scenario state this.
- **Output.** The web `WRT` format 0 feeds a UTF-8 decoder. Bytes are
  buffered until they decode, and byte 0 clears the output. Python format 0
  prints the character for bytes up to 0x7F, prints nothing above that, and
  emits a terminal reset for 0.
- **Run loop.** The web `run` prints a halt banner at the end. The Python
  `run` has an extra PC increment whose guard can never hold
  (`ExtraIncrementNeverFires`), and a class-3 opcode leaves it spinning
  forever (`ClassThreeSpins`).
- **Assemblers.** The web assembler has `$name` forward references,
  patched after the second pass, plus a source-line-to-PC map. It rejects
  upper-case register names and returns a hex dump. The Python assembler
  has parameterised macros (`define NAME(a,b): ... end`), binds `name:`
  prefixes as labels in the first pass, and substitutes label names in
  operands with their PC in decimal.

Behaviours of the code a reader may not expect, all modelled as written:

- web `setReg(5, v)` writes RAM but leaves the stored r5 as it was, so a
  read of register slot 13 (`13 & 7 == 5`, not caught by the `val === 5`
  test) sees the stale value (`ShadowR5IsStale`);
- web `LABEL` lines get no entry in the source-line-to-PC map;
- in the web assembler, `name:` prefixes are stripped and never bound,
  and a bare `JRE` is not expanded by the shorthand table;
- in the web assembler, a numeric constant reaching an operand slot is a
  number, not a string: it encodes as 0 when it is 0 and otherwise fails
  the way `.trim()` on a number fails (`NumericConstantOperand`);
- Python errors carry no line number; Python `JMP` and `CALL` have no
  one-operand shorthand (`JumpsNeedThreeOperands`);
- web disassembly followed by web assembly gives back a word that lists
  the same, except that NOT and SWAP lose their destination: the assembler
  reads the last operand of `NOT a, rD` and `SWAP rA, rD` as the second
  source (`DisassemblyReassembles`, `ReassemblyKeepsListing`);
- the web disassembler lists WRT of the character `;` as `WRT ";", 0b00 ;
  UTF-8`, which the assembler cannot read back: its first pass cuts the
  line at that `;` (`SemicolonLiteralDoesNotReassemble`);
- Python `name:` labels are bound in the first pass to the count of lines
  kept so far, before macro expansion. `LABEL` lines are kept too, so they
  advance that count. A `name:` label after a multi-line macro call
  therefore names an earlier instruction than the one it precedes;
- Python `LABEL name` is bound in the second pass to the number of words
  emitted so far, and does not advance it. So a `name:` label after a
  `LABEL` line names a later instruction than the one it precedes;
- in the web assembler, a quoted character must be one UTF-16 code unit:
  a quoted character above U+FFFF (two code units) is an "Unknown value"
  (`WideCharLiteralIsUnknown`).

## Model

| member | source | states |
|---|---|---|
| Isa.OpcodeByte | assembler.py:74-84 | the packed opcode is below 0x80, and its immediate flags, class and subtype read back as the fields packed |
| Isa.OpcodeByteOfFields | vm.py:48-53 | every opcode below 0x80 is the packing of its own decoded fields |
| Isa.InstructionAt | vm.py:14-21 | fetch fails exactly when `pc*4+4` exceeds the program length; otherwise the word is the four bytes at `pc*4` |
| Alu.AluResult | vm.py:59-75 | NOT is `255 - a`, and a rotation by a multiple of 8 leaves the operand unchanged |
| Alu.Signed8 | vm.py:134-138 | the signed reading of a byte lies in [-128, 128) and is congruent to it mod 256 |
| Alu.AddSubInverse | vm.py:63-72 | SUB undoes ADD and ADD undoes SUB on bytes |
| Alu.RotationsUndoEachOther | vm.py:61-70 | ROL by b undoes ROR by b and vice versa |
| Alu.NotIsInvolution | vm.py:73-75 | NOT ignores its second operand and applying it twice gives the operand back |
| Alu.ConditionsComplement | vm.py:87-102 | JMP/NOP, JNE/JEQ, JGE/JLT and JGT/JLE are complementary conditions |
| Bits.Not | web/src/vm.js:122-123 | `~a & 0xff` is `255 - a` |
| Bits.RolUndoesRor | web/src/vm.js:104-118 | the two rotation formulas are inverse to each other for every amount |
| Bits.RorMovesBits | web/src/vm.js:104-106 | bit i of `ROR a, b` is bit `(i + b mod 8) mod 8` of a |
| Bits.RotateByWholeByte | web/src/vm.js:104-118 | rotating by a multiple of 8 is the identity |
| Text.TrimStart | web/src/assembler.js:45 | removes exactly the maximal prefix of white space |
| Text.TrimEnd | web/src/assembler.js:45 | removes exactly the maximal suffix of white space |
| Text.BeforeSemicolon | web/src/assembler.js:103 | the result is the line up to, not including, its first `;` |
| Text.MatchLabelPrefix | web/src/assembler.js:143-147 | a match is a non-empty run of word characters followed by `:`, and the rest is shorter than the line |
| Text.MatchLabelPrefixCaptures | web/src/assembler.js:143-147 | a match exactly when the leading word run is non-empty and followed by `:`; the label is that whole run; the rest is the text after the colon with its leading space skipped, cut at the first line terminator |
| Text.SplitFields | web/src/assembler.js:153 | at least one field and no separator in any field; the empty line gives one empty field; a leading separator gives an empty first field, otherwise the first field starts with the first character |
| Text.SplitInterleaved | web/src/assembler.js:153 | splitting undoes joining: separator-free fields, non-empty except possibly the first and last, joined by runs of separators split back into exactly those fields |
| Text.SplitFieldsKeepsText | assembler.py:233 | the fields put together are the line with its separators removed |
| Text.ToUpperAscii | web/src/assembler.js:154 | maps each lower-case letter to upper case and keeps every other character |
| Text.JsParseInt | web/src/assembler.js:52-53 | `parseInt` is NaN exactly when no digit of the radix follows the leading white space and sign |
| Text.JsParseIntOfDigits | web/src/assembler.js:52-53 | on a string of digits `parseInt` returns their value |
| Text.WithoutUnderscores | assembler.py:61-66 | only characters of the input other than `_`, and the input itself when it holds no `_` |
| Text.WithoutUnderscoresAppend | assembler.py:61-66 | dropping underscores distributes over concatenation, so exactly the underscores go and the other characters keep their order |
| Text.PyTailDigits | assembler.py:61-66 | after the underscores are dropped, an accepted digit tail holds only digits of the radix |
| Text.Numeral | web/src/vm.js:279 | the numeral has no leading zero, only digits of the radix, and reads back as n |
| Text.HexByte | web/src/assembler.js:215 | `toString(16).padStart(2, "0")` of a byte is two hex digits reading back as the byte |
| WebVm.State.SetReg | web/src/vm.js:38-52 | writes to r6 are dropped; writing r5 stores into RAM at r4; writing r4 also reloads r5 from RAM; any other write masks into the register; stack, output and halted are unchanged |
| WebVm.State.Advance | web/src/vm.js:127 | the PC step keeps the machine well-formed (its effect is stated by the lemmas below) |
| WebVm.State.HandleUtf8Byte | web/src/vm.js:70-86 | byte 0 clears output and buffer; otherwise the buffered bytes are printed and the buffer emptied once they decode, else the byte is kept in the buffer |
| WebVm.State.Wrt | web/src/vm.js:54-69 | formats 1, 2 and 3 append a decimal digit, a letter or an upper-case hex digit, or `?` when out of range; registers, RAM, stack and halted are untouched |
| WebVm.State.IoEffect | web/src/vm.js:173-202 | MOV, SWAP, PUSH, POP and WRT keep the machine well-formed |
| WebVm.State.IoTransfer | web/src/vm.js:203-218 | CALL, JRE and HCF keep the machine well-formed |
| WebVm.State.Execute | web/src/vm.js:88-222 | one instruction keeps the machine well-formed, and a class-3 opcode changes nothing |
| WebVm.State.Step | web/src/vm.js:240-248 | a halted machine does not change, and a fetch past the end only sets halted |
| WebVm.State.Run | web/src/vm.js:231-238 | running keeps the machine well-formed |
| WebVm.Initial | web/src/vm.js:2-15 | the fresh machine is well-formed, not halted, with PC 0 |
| WebVm.MiniMachineVM.constructor | web/src/vm.js:2-15 | the new object's state is the initial machine |
| WebVm.MiniMachineVM.Fetch | web/src/vm.js:17-25 | returns the instruction at the PC, or none and sets halted |
| WebVm.MiniMachineVM.GetOperand | web/src/vm.js:27-36 | returns the operand as the state function reads it (RAM at r4 for register 5) |
| WebVm.MiniMachineVM.SetReg | web/src/vm.js:38-52 | the new state is `SetReg` of the old |
| WebVm.MiniMachineVM.Wrt | web/src/vm.js:54-69 | the new state is `Wrt` of the old |
| WebVm.MiniMachineVM.HandleUtf8Byte | web/src/vm.js:70-86 | the new state is `HandleUtf8Byte` of the old |
| WebVm.MiniMachineVM.Execute | web/src/vm.js:88-222 | the new state is `Execute` of the old |
| WebVm.MiniMachineVM.ExecuteIo | web/src/vm.js:171-221 | the new state is the IO transition of the old |
| WebVm.MiniMachineVM.IoEffect | web/src/vm.js:173-202 | the new state is `IoEffect` of the old |
| WebVm.MiniMachineVM.IoTransfer | web/src/vm.js:203-218 | the new state is `IoTransfer` of the old |
| WebVm.MiniMachineVM.Step | web/src/vm.js:240-248 | the new state is `Step` of the old |
| WebVm.MiniMachineVM.Run | web/src/vm.js:231-238 | the new state is `Run` of the old |
| WebVmProps.ReadBackAfterSetReg | web/src/vm.js:27-52 | after writing any register but r6, reading it gives the value mod 256 (r5 through RAM) |
| WebVmProps.SetRegIdempotent | web/src/vm.js:38-52 | writing the same value twice is the same as once |
| WebVmProps.AddressThenData | web/src/vm.js:49-51 | after writing r4, both the r5 operand and the stored r5 are the RAM cell at the new address |
| WebVmProps.ShadowR5IsStale | web/src/vm.js:29-33 | after writing r5, slot 13 still reads the old stored r5 while slot 5 reads the new value |
| WebVmProps.SetPlainRegister | web/src/vm.js:46-48 | writing r0-r3 or r7 changes that register only |
| WebVmProps.AluWritesDestThenAdvances | web/src/vm.js:96-128 | an ALU instruction into r0-r3 writes the ALU result and advances the PC |
| WebVmProps.AluIntoPcThenAdvances | web/src/vm.js:126-127 | an ALU result written to the PC is advanced by one more |
| WebVmProps.AluWritesSpecialDest | web/src/vm.js:126-127 | an ALU result into r4 sets r4 and reloads r5 from RAM at it; into r5 it is stored in RAM at r4; into r6 it is dropped; the PC then advances |
| WebVmProps.CondSetsOnlyPc | web/src/vm.js:132-168 | a conditional jump changes only the PC: `dest` when taken, PC+1 otherwise |
| WebVmProps.SwapExchanges | web/src/vm.js:178-185 | SWAP of two slots neither of which is r6 (r5 and r7 included) exchanges the raw register values, then advances the PC, with RAM, stack, output, buffer and halt flag unchanged; with r6 involved only the PC advances |
| WebVmProps.MovStoresOperand | web/src/vm.js:173-177 | MOV leaves stack, output and halt flag alone; into r0-r5 the destination reads back as the operand and the PC advances; into r4 it also reloads r5 from RAM; into r6 only the PC advances; into r7 the PC becomes the operand plus one |
| WebVmProps.PopTakesTop | web/src/vm.js:191-196 | POP on a non-empty stack removes the top; into r0-r5 the destination reads back as the popped byte and the PC advances; into r6 only the top is dropped; into r7 the PC becomes the popped byte plus one |
| WebVmProps.WrtOnlyPrints | web/src/vm.js:197-202 | WRT changes only the PC (advanced), the output and the UTF-8 buffer; formats 1-3 append the digit, letter or hex digit of the operand, or `?`, and keep the buffer; format 0 feeds the operand to the UTF-8 buffer |
| WebVmProps.PushAppends | web/src/vm.js:186-190 | PUSH appends the operand to the stack and advances |
| WebVmProps.PopEmptyOnlyAdvances | web/src/vm.js:191-196 | POP on an empty stack only advances the PC |
| WebVmProps.PushThenPop | web/src/vm.js:186-196 | PUSH then POP into r0-r3 moves the operand and leaves the stack as it was |
| WebVmProps.CallThenPopPcReturns | web/src/vm.js:203-208 | CALL jumps to its operand and pushes its own address; a following `POP PC` resumes right after the CALL |
| WebVmProps.JreJumpsRelative | web/src/vm.js:209-214 | JRE adds signed r0 to the PC mod 256 without advancing; with r0 = 0 it changes nothing |
| WebVmProps.HcfHalts | web/src/vm.js:215-218 | HCF sets halted and changes nothing else |
| WebVmProps.HaltedStaysHalted | web/src/vm.js:240-241 | any number of steps leaves a halted machine unchanged |
| WebVmProps.RunIsStepsThenBanner | web/src/vm.js:231-238 | when run halts within the fuel, its result is some number of steps followed by the halt banner |
| WebVmProps.RunEndsWithBanner | web/src/vm.js:237 | the output after run ends with the halt banner |
| WebDisassembler.MnemonicsMatchOpcodeTable | web/src/vm.js:265-290 | each disassembler mnemonic list agrees with the assembler's opcode table at the same class and subtype |
| WebDisassembler.RegName | web/src/vm.js:255 | the printed register name is a register name of the assembler, naming `idx & 7` |
| WebDisassembler.Disassemble | web/src/vm.js:249-353 | the line is `???` exactly for class 3, and otherwise is headed by the mnemonic of the opcode's class and subtype; the WebRoundTrip lemmas state what the operands say |
| WebAssembler.IsRegister | web/src/assembler.js:58-65 | fails exactly for `R0`-`R7`, with that message; true exactly for register-table keys |
| WebAssembler.ParseValue | web/src/assembler.js:44-56 | a non-string fails as `.trim()` does; a string fails exactly when it is no constant, character, `0x`, `0b` or decimal literal, with "Unknown value" |
| WebAssembler.ImmediateFlag | web/src/assembler.js:69-70 | an empty operand is not immediate; any other is immediate exactly when it is not a register name |
| WebAssembler.EncodeOpcode | web/src/assembler.js:67-72 | the byte packs class, subtype and both immediate flags, and fails exactly when a flag test fails |
| WebAssembler.EncodeOperand | web/src/assembler.js:74-77 | an empty operand is 0, a register its index, an upper-case register name is `isRegister`'s error, and any other operand is whatever `ParseValue` gives (a non-string fails) |
| WebAssembler.HandleShorthand | web/src/assembler.js:79-90 | the shorthand table: HCF becomes three zeros, one-operand POP/JMP fill the destination, PUSH/CALL/WRT and two-operand MOV/WRT are padded with zeros, and a full operand list is kept |
| WebAssembler.MatchDefine | web/src/assembler.js:110 | a match starts with `define` and has a non-empty name, and a present body is non-empty |
| WebAssembler.MatchDefineCaptures | web/src/assembler.js:110 | a match exactly when `define` is followed by space and a word character; the name is the whole word run after that space; the body is the rest of the line after the space that follows the name, cut at a line terminator |
| WebAssembler.FirstPassLine | web/src/assembler.js:103-133 | a blank line changes nothing; a define binds its name to `DefineValue` of its body, or fails with a constant error for line i+1; any other line is queued with its index and the constants are unchanged |
| WebAssembler.QueuedFrom | web/src/assembler.js:102-134 | each queued entry holds its source line cleaned and its index, is neither blank nor a define, and the indices strictly increase |
| WebAssemblerProps.FirstPassLineQueues | web/src/assembler.js:104-130 | a line is queued, with its index, exactly when it is neither blank nor a define |
| WebAssemblerProps.FirstPassQueuesLines | web/src/assembler.js:102-134 | a successful first pass queues, after what it was given, exactly the non-blank, non-define lines, cleaned, in source order with their indices, whatever the constants |
| WebAssembler.DefineValue | web/src/assembler.js:114-118 | a missing body fails; a body naming a register defines an alias; an upper-case register name is `isRegister`'s error; any other body binds the number `ParseValue` reads from it, or fails with its error |
| WebAssembler.StripLabels | web/src/assembler.js:143-147 | no `name:` prefix remains, a line without one is unchanged, and the line never grows |
| WebAssembler.ResolveSlot | web/src/assembler.js:165-169 | a slot is deferred exactly when it is an unknown label written `$name`, and the deferred target is that name |
| WebAssembler.ResolveSlots | web/src/assembler.js:164-173 | three slots come back; earlier references are kept, and new ones point at the current instruction and a slot at or after the current one |
| WebAssembler.EncodeWord | web/src/assembler.js:177-190 | the word is the encoded opcode and the three encoded operands, and fails exactly when one of them fails |
| WebAssembler.AssembleLine | web/src/assembler.js:140-201 | one queued line keeps the pass state well-formed |
| WebAssembler.MapLineToPc | web/src/assembler.js:150 | records the current PC for the source line and changes nothing else |
| WebAssembler.AssembleTokens | web/src/assembler.js:153-193 | one tokenised line keeps the pass state well-formed |
| WebAssembler.BindLabel | web/src/assembler.js:156-160 | `LABEL` binds the name to the current PC and changes nothing else |
| WebAssembler.AssembleInstruction | web/src/assembler.js:163-193 | success appends exactly one word and keeps the earlier output; an unknown mnemonic fails with its line number |
| WebAssembler.SecondPassFrom | web/src/assembler.js:140-201 | the second pass keeps the pass state well-formed |
| WebAssembler.PatchFrom | web/src/assembler.js:204-210 | patching keeps the number of words, and fails exactly when some deferred target is not a `$` label |
| WebAssembler.Flatten | web/src/assembler.js:213-214 | flattening gives four bytes per word |
| WebAssembler.CollectConstants | web/src/assembler.js:102-134 | the first-pass loop computes the first-pass function, whose steps `FirstPassLine` states |
| WebAssembler.StripLabelPrefixes | web/src/assembler.js:143-147 | the loop computes `StripLabels`, and no `name:` prefix remains |
| WebAssembler.ResolveOperands | web/src/assembler.js:164-173 | the slot loop computes `ResolveSlots` |
| WebAssembler.AssembleQueued | web/src/assembler.js:137-201 | the second-pass loop computes the second-pass function |
| WebAssembler.AssembleQueuedLine | web/src/assembler.js:140-152 | the line step computes `AssembleLine` |
| WebAssembler.AssembleTokenLine | web/src/assembler.js:153-161 | the token step computes `AssembleTokens` |
| WebAssembler.AssembleInstructionLine | web/src/assembler.js:163-193 | the instruction step computes `AssembleInstruction` |
| WebAssembler.ResolveLabels | web/src/assembler.js:204-210 | the patch loop computes `PatchFrom` |
| WebAssembler.AssembleFromLines | web/src/assembler.js:92-218 | the whole assembler computes `Assemble` |
| WebAssemblerProps.NonStringsAreNotRegisters | web/src/assembler.js:58-65 | numbers and `undefined` are never register names |
| WebAssemblerProps.DecimalReadsBack | web/src/assembler.js:54 | the decimal numeral of n reads back as n mod 256 |
| WebAssemblerProps.HexLiteralReadsBack | web/src/assembler.js:52 | `0x` plus the two-digit hex of a byte, in either case, reads back as the byte |
| WebAssemblerProps.CharLiteralReadsBack | web/src/assembler.js:51 | a quoted character of one UTF-16 code unit reads back as its code mod 256 |
| WebAssemblerProps.WideCharLiteralIsUnknown | web/src/assembler.js:51-55 | a quoted character of two UTF-16 code units is no literal and fails with "Unknown value" |
| WebAssemblerProps.OperandTextRoundTrip | web/src/assembler.js:69-77 | the disassembler's operand text is immediate exactly when the operand was, and encodes back to the operand |
| WebAssemblerProps.NumericConstantOperand | web/src/assembler.js:170-172 | a numeric constant in a slot is immediate when non-zero, and encodes only when it is 0 |
| WebAssemblerProps.KnownLabelOperand | web/src/assembler.js:165 | a known label is replaced by its PC as text and is not deferred |
| WebAssemblerProps.ForwardReferencePlaceholder | web/src/assembler.js:166-169 | an unknown `$name` is deferred as `name` and replaced by the placeholder 0 |
| WebAssemblerProps.ZeroOperand | web/src/assembler.js:74-77 | the placeholder `"0"` is an immediate that encodes as 0 |
| WebAssemblerProps.ZeroReadsBack | web/src/assembler.js:54 | `"0"` parses as 0 |
| WebAssemblerProps.OperandTextsReassemble | web/src/vm.js:255-272 | the three-operand listing form (each source as a register name or `0x` literal, the destination as a register name) behind the mnemonic encodes back to the word; the disassembler prints this form for ALU words other than NOT |
| WebAssemblerProps.PatchKeepsOthers | web/src/assembler.js:204-210 | patching changes no opcode and no slot that has no deferred reference |
| WebAssemblerProps.PatchFillsReferences | web/src/assembler.js:209 | each deferred slot ends up holding its label's PC mod 256 |
| WebAssemblerProps.SecondPassOrdered | web/src/assembler.js:164-169 | deferred references are recorded in instruction-then-slot order |
| WebAssemblerProps.HexDumpLength | web/src/assembler.js:213-216 | the dump has three characters per byte, less the last space |
| WebAssemblerProps.HexDumpAt | web/src/assembler.js:213-216 | byte k sits at characters 3k and 3k+1, followed by a space unless it is last |
| WebAssemblerProps.HexDumpReadsBack | web/src/assembler.js:213-216 | the two characters at 3k read back as byte k |
| WebAssemblerProps.AssembledReferencesPatched | web/src/assembler.js:203-217 | in a successful assembly every forward reference names a label, and its slot holds that label's PC mod 256 |
| WebAssemblerProps.AssembledShape | web/src/assembler.js:191-217 | a successful assembly keeps every opcode of the second pass, and maps each line to a PC no larger than the word count |
| WebAssemblerProps.UndefinedLabelFails | web/src/assembler.js:204-208 | a forward reference to a label never defined makes the whole assembly fail with an undefined-label error |
| WebAssemblerProps.PatchErrorIsUndefinedLabel | web/src/assembler.js:205-208 | the only error patching reports is an undefined label |
| WebRoundTrip.Reassembled | web/src/vm.js:249-353 | the word a listing reads back as keeps the class and subtype of the word listed |
| WebRoundTrip.DisassemblyReassembles | web/src/vm.js:249-353 | the listing of any class-0..2 word except WRT of a quoted `;`, given to the assembler as a one-line program, assembles into exactly one word, mapping line 0 to PC 0: the word with register operands reduced to their index, the short forms filled in as the assembler fills them, and for NOT and SWAP the destination in the second operand's slot |
| WebRoundTrip.ReassemblyKeepsListing | web/src/vm.js:249-353 | the word read back lists exactly as the original word did, except that NOT and SWAP then show `r0` as their destination |
| WebRoundTrip.ReassembledIsStable | web/src/vm.js:249-353 | a second listing-and-assembly gives what the first gave for the listing's own word; for all but NOT and SWAP it gives the same word again |
| WebRoundTrip.SemicolonLiteralDoesNotReassemble | web/src/assembler.js:103 | WRT of the immediate `;` in format 0 lists as a quoted `;`, which the first pass cuts as a comment, so assembling the listing fails on line 1 with "Unknown value" for `"` |
| WebRoundTrip.SemicolonListing | web/src/vm.js:299-342 | WRT of the immediate `;` in format 0 lists as `WRT ";", 0b00 ; UTF-8` |
| WebRoundTrip.ListingSplits | web/src/assembler.js:153 | the tokens of a listing split on `[,\s]+` are its mnemonic and its operand texts |
| WebRoundTrip.ListingIsClean | web/src/assembler.js:103 | a listing is non-empty, holds no `;`, and neither starts nor ends with space |
| WebRoundTrip.CleanListing | web/src/assembler.js:103 | cutting a listing line at its first `;` and trimming removes the WRT comment and leaves the listing |
| WebRoundTrip.ListingHasNoLabel | web/src/assembler.js:143-147 | a listing carries no `name:` prefix, so stripping prefixes leaves it as it is |
| WebRoundTrip.ListingQueued | web/src/assembler.js:102-134 | the first pass queues a listing line, without its comment, as line 0 and binds no constant |
| WebRoundTrip.ListingLineIsInstruction | web/src/assembler.js:140-163 | the second pass reads a listing line as its mnemonic with its operand texts as tokens |
| WebRoundTrip.ListingAssembles | web/src/assembler.js:92-218 | a listing line whose tokens encode into a word assembles, as a one-line program, into exactly that word with its hex dump and line 0 at PC 0 |
| WebRoundTrip.OperandTextReads | web/src/vm.js:255-259 | an operand text is one token, immediate exactly when the operand was, and encodes as the byte it shows (a register as its index) |
| WebRoundTrip.TargetReads | web/src/vm.js:283-285 | the unpadded `0x` target of a branch encodes as the destination byte |
| WebRoundTrip.FormatReads | web/src/vm.js:340-342 | the `0b` format field of WRT encodes as the format |
| WebRoundTrip.QuotedCharacterReads | web/src/vm.js:318 | a printable character other than space, `"`, `,` and `;`, quoted, encodes as its code |
| WebRoundTrip.DecimalTextReads | web/src/vm.js:320-327 | the decimal numeral of a byte encodes as the byte |
| WebRoundTrip.WrtOperandReads | web/src/vm.js:299-334 | every WRT operand text except the quoted `;` is one token that encodes as the byte shown, immediate exactly when the operand was |
| WebRoundTrip.AluOperandsEncode | web/src/vm.js:263-273 | the operand texts of an ALU listing are tokens that encode, behind the mnemonic, into the word read back |
| WebRoundTrip.CondOperandsEncode | web/src/vm.js:274-286 | the same for a branch listing: JMP with its padded target, bare NOP, and the three-operand branches |
| WebRoundTrip.IoOperandsEncode | web/src/vm.js:287-349 | the same for every IO listing except WRT of a quoted `;` |
| WebRoundTrip.MnemonicIsUpperWord | web/src/vm.js:265-289 | every mnemonic is an upper-case word and none is `LABEL` |
| WebRoundTrip.TrailerIsTrailer | web/src/vm.js:339-342 | what follows a listing's operands is nothing, or a space and a `;` comment |
| PyVm.State.SetReg | vm.py:42-45 | writes to r6 are dropped; any other write masks into that register; stack, output and halted are unchanged |
| PyVm.State.Advance | vm.py:143 | the PC step keeps the machine well-formed (its effect is stated by the lemmas below) |
| PyVm.State.IoEffect | vm.py:111-128 | MOV, SWAP, PUSH, POP and WRT keep the machine well-formed |
| PyVm.State.IoTransfer | vm.py:129-142 | CALL, JRE and HCF keep the machine well-formed |
| PyVm.State.Execute | vm.py:47-144 | one instruction keeps the machine well-formed, and a class-3 opcode changes nothing |
| PyVm.State.ExtraIncrement | vm.py:35-37 | the conditional increment after execute keeps the machine well-formed |
| PyVm.State.Cycle | vm.py:24-37 | one loop iteration keeps the machine well-formed |
| PyVm.State.Run | vm.py:23-37 | running keeps the machine well-formed |
| PyVm.Initial | vm.py:4-12 | the fresh machine is well-formed, not halted, with PC 0 |
| PyVm.MiniMachineVM.constructor | vm.py:4-12 | the new object's state is the initial machine |
| PyVm.MiniMachineVM.Fetch | vm.py:14-21 | returns the instruction at the PC, or none and sets halted |
| PyVm.MiniMachineVM.GetOperand | vm.py:39-40 | returns the operand as the state function reads it |
| PyVm.MiniMachineVM.SetReg | vm.py:42-45 | the new state is `SetReg` of the old |
| PyVm.MiniMachineVM.Wrt | vm.py:146-168 | the new state is `Wrt` of the old |
| PyVm.MiniMachineVM.Execute | vm.py:47-144 | the new state is `Execute` of the old |
| PyVm.MiniMachineVM.ExecuteIo | vm.py:110-144 | the new state is the IO transition of the old |
| PyVm.MiniMachineVM.IoEffect | vm.py:111-128 | the new state is `IoEffect` of the old |
| PyVm.MiniMachineVM.IoTransfer | vm.py:129-142 | the new state is `IoTransfer` of the old |
| PyVm.MiniMachineVM.Run | vm.py:23-37 | the new state is `Run` of the old |
| PyVmProps.NoRamWindow | vm.py:39-45 | writing r4 leaves r5 alone, and register slot 13 reads the same as r5 |
| PyVmProps.SetRegChangesOneRegister | vm.py:42-45 | a write changes only its own register, never r6 |
| PyVmProps.AluWritesDestThenAdvances | vm.py:56-80 | an ALU instruction into r0-r5 writes the ALU result and advances the PC |
| PyVmProps.AluIntoReservedOnlyAdvances | vm.py:78-79 | an ALU instruction into r6 only advances the PC |
| PyVmProps.AluIntoPcThenAdvances | vm.py:78-79 | an ALU result written to the PC is advanced by one more |
| PyVmProps.CondSetsOnlyPc | vm.py:83-107 | a conditional jump changes only the PC: `dest` when taken, PC+1 otherwise |
| PyVmProps.NopNeverJmpAlways | vm.py:87-96 | NOP always falls through and JMP always jumps to `dest` |
| PyVmProps.SwapExchanges | vm.py:114-118 | SWAP of two registers neither of which is r6 (r7 included) exchanges them, then advances the PC, with stack, output and halt flag unchanged; with r6 involved only the PC advances |
| PyVmProps.MovStoresOperand | vm.py:111-113 | MOV into r0-r5 stores the operand there and advances the PC, nothing else changing; into r6 only the PC advances; into r7 the PC becomes the operand plus one |
| PyVmProps.PopTakesTop | vm.py:122-124 | POP on a non-empty stack removes the top and stores it into r0-r5 with the PC advanced, nothing else changing; into r6 it only drops the top; into r7 the PC becomes the popped byte plus one |
| PyVmProps.PushAppends | vm.py:119-121 | PUSH appends the operand to the stack and advances |
| PyVmProps.PopEmptyOnlyAdvances | vm.py:122-124 | POP on an empty stack only advances the PC |
| PyVmProps.PushThenPop | vm.py:119-124 | PUSH then POP into r0-r5 moves the operand and leaves the stack as it was |
| PyVmProps.CallThenPopPcSkipsOne | vm.py:129-133 | CALL jumps to its operand and pushes PC+1; a following `POP PC` resumes two instructions after the CALL |
| PyVmProps.JreJumpsRelative | vm.py:134-139 | JRE adds signed r0 to the PC mod 256 without advancing; with r0 = 0 it changes nothing |
| PyVmProps.HcfHalts | vm.py:140-142 | HCF sets halted and changes nothing else |
| PyVmProps.WrtAppends | vm.py:125-128 | WRT appends the text for the operand in format `op2 & 3` and advances |
| PyVmProps.NoFixedPredecessor | vm.py:36 | no byte equals its own predecessor mod 256 |
| PyVmProps.ExtraIncrementNeverFires | vm.py:35-37 | the extra PC increment in `run` never changes the machine |
| PyVmProps.CycleIsFetchThenExecute | vm.py:24-34 | a loop iteration halts when fetch fails and otherwise executes the fetched word |
| PyVmProps.ClassThreeSpins | vm.py:47-56 | a class-3 opcode at the PC keeps the loop where it is for any fuel |
| PyVmProps.RunComposes | vm.py:23-37 | running for a+b iterations is running for a, then for b |
| PyVmProps.ExecuteAppendsOutput | vm.py:146-168 | an instruction only ever appends to the output |
| PyVmProps.RunAppendsOutput | vm.py:23-37 | running only ever appends to the output |
| PyVmProps.RunStopsOnlyWhenHalted | vm.py:23-37 | once a run ends halted, any further fuel changes nothing; a run that ends un-halted goes on with one more turn of the loop when given one more unit of fuel |
| PyVmProps.WrtPrintsOneCharacter | vm.py:153-167 | formats 1-3 print one character, `?` exactly when the value is out of range |
| PyVmProps.WrtCharacterNamesValue | vm.py:153-167 | in range, the character is the decimal digit, the letter from A, or the upper-case hex digit of the value |
| PyVmProps.WrtFormatZero | vm.py:147-152 | format 0 prints the terminal reset for 0, the character for 1..0x7F and nothing above |
| PyAssembler.ParseValue | assembler.py:54-67 | a constant name gives its value; a quoted character its code; a string that is no constant, character, `0x`, `0b` or decimal literal fails with "Unknown value"; the only other failure is a malformed `0x`/`0b` literal |
| PyAssembler.EncodeOpcode | assembler.py:74-84 | the byte is below 0x80, packs the mnemonic's class and subtype, and an operand is immediate exactly when it is non-empty and no register name |
| PyAssembler.EncodeOperand | assembler.py:87-92 | a missing operand is 0, a register its index, anything else its parsed value mod 256 |
| PyAssembler.EncodeWord | assembler.py:259-264 | the word is the encoded opcode and the three encoded operands, and fails exactly when one operand fails |
| PyAssembler.HandleShorthand | assembler.py:197-217 | the shorthand table: HCF becomes three zeros, two-operand MOV gets a middle 0, WRT and PUSH are padded with zeros, one-operand POP fills the destination, other mnemonics are untouched |
| PyAssembler.MatchDefine | assembler.py:111-118 | a match starts with `define` and has a non-empty name of word characters |
| PyAssembler.MatchDefineCaptures | assembler.py:113-118 | a match exactly when `define` is followed by space and a word character; the name is the whole word run after that space; an argument list holds no `)`; the rest starts with no space and holds no line terminator |
| PyAssembler.MacroParams | assembler.py:120-121 | parameters are the non-empty stripped comma-separated names |
| PyAssembler.MacroBodyFrom | assembler.py:124-135 | the scan resumes between its start and the end of the file (the body and the stop: `MacroBodyIsNonBlankLines`) |
| PyAssembler.MacroEnd | assembler.py:126-132 | the stopping line lies between the start and the end of the file |
| PyAssembler.MacroEndIsFirstStop | assembler.py:126-132 | no line before the stopping line is `end` or a define, and the stopping line is one unless it is the end of the file |
| PyAssembler.NonBlankLines | assembler.py:133-134 | at most one line per source line, and none of them blank |
| PyAssembler.MacroBodyIsNonBlankLines | assembler.py:124-135 | the body is the non-blank cleaned lines before the first `end` or define, in order; the scan resumes past an `end` and at a define |
| PyAssembler.BindLabelPrefixes | assembler.py:143-153 | every `name:` prefix is bound to the current PC, older labels are kept unless rebound, and the rest has no prefix left |
| PyAssembler.FirstPassLine | assembler.py:106-159 | one first-pass step consumes at least one line and keeps the state well-formed |
| PyAssembler.FirstPassLineCases | assembler.py:107-159 | a blank line is skipped; a `define ` line the define pattern matches goes to `DefineLine`; every other line, an unmatched `define ` line included, goes to `KeepLine` |
| PyAssembler.DefineLine | assembler.py:111-141 | a macro define binds the upper-cased name to its parameters and collected body and resumes where the body scan stops; a constant define binds the name to the parsed value of the rest and resumes at the next line, or fails with the parse error; labels and kept lines are unchanged |
| PyAssembler.KeepLine | assembler.py:154-159 | a line is kept at most once, after the earlier kept lines, and constants and macros are unchanged |
| PyAssembler.FirstPassFrom | assembler.py:106-159 | the first pass keeps the state well-formed |
| PyAssemblerProps.FirstPassKeepsPlainLines | assembler.py:106-159 | without defines and label prefixes the first pass binds nothing and keeps exactly the non-blank cleaned lines, in order |
| PyAssembler.Assign | assembler.py:174 | `d[k] = v` holds the new item, keeps every item with another key, and adds at most one item |
| PyAssembler.SubstituteLines | assembler.py:177-187 | one output line per body line (what each line becomes: `SubstituteLinesComposes`) |
| PyAssemblerProps.SubstituteEach | assembler.py:187 | line k of the result is line k with every item of the map substituted, in order |
| PyAssemblerProps.SubstituteLinesComposes | assembler.py:177-187 | `subst_args` on a body is the call's substitution followed by the enclosing call's, line by line |
| PyAssemblerProps.ReplaceFirstOccurrence | assembler.py:180 | `replace` puts the value in place of the first occurrence of a non-empty key and goes on after it |
| PyAssemblerProps.ReplaceAbsent | assembler.py:180 | a string holding no occurrence of a non-empty key is left as it is |
| PyAssembler.StripLabels | assembler.py:225-230 | no `name:` prefix remains, and a line without one is left as it is |
| PyAssembler.LabelArgs | assembler.py:251-253 | label substitution keeps the number of operands |
| PyAssembler.AssembleLine | assembler.py:223-265 | one line adds at most one word and keeps the earlier output, with the cases stated by AssembleLineCases |
| PyAssembler.AssembleLineCases | assembler.py:223-248 | after the `name:` prefixes go, a blank line or empty first token emits nothing, `LABEL` goes to DefineLabel, anything else to AssembleInstruction with the upper-cased mnemonic |
| PyAssembler.DefineLabel | assembler.py:237-247 | `LABEL` needs exactly two tokens, rejects a name already bound, and otherwise binds the name to the current PC |
| PyAssembler.AssembleInstruction | assembler.py:248-265 | fewer than three operands after shorthand fail as an unpack error before the mnemonic is checked; an unknown mnemonic fails; otherwise it appends exactly the `EncodeWord` of the first three label-substituted, shorthand-completed operands, or fails with its error, and the tables are kept |
| PyAssembler.SecondPassFrom | assembler.py:223-265 | the second pass adds at most one word per line and keeps the earlier output; the words are stated by SecondPassEmitsWords |
| PyAssemblerProps.AssembleLineEmitsWord | assembler.py:223-265 | an instruction line (no prefix, not `LABEL`, known mnemonic, encodable operands) appends its word and changes nothing else |
| PyAssemblerProps.SecondPassStepEmits | assembler.py:223-265 | the second pass at an instruction line continues from the next line with that line's word appended |
| PyAssemblerProps.SecondPassEmitsWords | assembler.py:223-265 | over instruction lines the second pass emits each line's word, in order, after the earlier output, and keeps the tables |
| PyAssembler.CollectMacroBody | assembler.py:124-135 | the macro-body loop computes `MacroBodyFrom`, whose result `MacroBodyIsNonBlankLines` states |
| PyAssembler.BindLabelPrefixLoop | assembler.py:143-153 | the label-prefix loop computes `BindLabelPrefixes` |
| PyAssembler.DefineStep | assembler.py:111-141 | the define step computes `DefineLine` |
| PyAssembler.FirstPassStep | assembler.py:107-159 | the first-pass step computes `FirstPassLine` |
| PyAssembler.FirstPassLoop | assembler.py:106-159 | the first-pass loop computes `FirstPassFrom` |
| PyAssembler.SubstituteLabelOperands | assembler.py:251-253 | the operand loop computes `LabelArgs` |
| PyAssembler.StripLabelPrefixes | assembler.py:225-230 | the loop computes `StripLabels` |
| PyAssembler.AssembleExpandedLine | assembler.py:224-265 | the loop body computes `AssembleLine` |
| PyAssembler.SecondPassLoop | assembler.py:221-266 | the second-pass loop computes `SecondPassFrom` |
| PyAssembler.AssembleLines | assembler.py:96-266 | the whole assembler computes `Assemble` |
| PyAssemblerProps.DigitsAreTail | assembler.py:61-66 | a plain digit string is an accepted `int` tail and has no underscores to drop |
| PyAssemblerProps.PrefixedDigitsParse | assembler.py:61-64 | `int(p + h, radix)` for a two-letter prefix reads the digits h |
| PyAssemblerProps.DecimalReadsBack | assembler.py:65-66 | the decimal numeral of n parses as n, not reduced |
| PyAssemblerProps.HexReadsBack | assembler.py:61-62 | `0x` plus the hex numeral of n, in either case, parses as n |
| PyAssemblerProps.BinaryReadsBack | assembler.py:63-64 | `0b` plus the binary numeral of n parses as n |
| PyAssemblerProps.CharLiteralReadsBack | assembler.py:58-60 | a character in single or double quotes parses as its code |
| PyAssemblerProps.OperandsAreReduced | assembler.py:87-92 | a decimal operand encodes as its value mod 256 |
| PyAssemblerProps.HexLiteralReadsBack | assembler.py:61-62 | the disassembler's two-digit hex literal parses back as the byte |
| PyAssemblerProps.OperandTextEncodes | assembler.py:82-92 | the disassembler's operand text is immediate exactly when the operand was, and encodes back to it |
| PyAssemblerProps.OperandTextsReassemble | assembler.py:259-264 | the three-operand form of a browser listing (each source as a register name or `0x` literal, the destination as a register name) behind the mnemonic encodes to the word; the browser disassembler prints this form for ALU words other than NOT |
| PyAssemblerProps.LabelOperandEncodesPc | assembler.py:251-253 | a label operand becomes its PC in decimal and encodes as that PC mod 256 |
| PyAssemblerProps.JumpToLabel | assembler.py:248-264 | `JMP 0, 0, label` appends the JMP word whose destination is the label's PC mod 256 |
| PyAssemblerProps.JumpsNeedThreeOperands | assembler.py:197-217 | JMP and CALL with fewer than three operands fail with the unpack error |
| PyAssemblerProps.LabelNamesItsLine | assembler.py:143-158 | a `name:` prefix binds the name to the index the rest of the line is kept at |
| PyAssemblerProps.OneField | assembler.py:165 | a line without separators splits into itself |
| PyAssemblerProps.PlainLinesKept | assembler.py:162-195 | lines that call no macro come out of expansion unchanged |
| PyAssemblerProps.ExpandLinesDeeper | assembler.py:162-195 | once expansion succeeds, a larger depth bound gives the same lines |
| PyAssemblerProps.ExpandLineDeeper | assembler.py:164-194 | the same for one line |
| PyAssemblerProps.SelfCallNeverEnds | assembler.py:169-188 | a macro whose body calls itself fails with the recursion error at every depth |
| PyAssemblerProps.PlainLinesSubstituted | assembler.py:189-194 | lines whose first tokens name no macro come out one for one, each with the enclosing call's arguments substituted |
| PyAssemblerProps.CallArgs | assembler.py:173-174 | the argument map of a call has no more items than the macro has parameters or the call has operands |
| PyAssemblerProps.CallExpandsToBody | assembler.py:169-188 | a call of a macro whose substituted body calls no macro expands to the body with the call's arguments, then the enclosing ones, then the call's arguments again substituted |
| PyAssemblerProps.NoCallIgnoresDepth | assembler.py:189-194 | a line that calls no macro expands the same way at every depth bound |
| PyAssemblerProps.CallAtZeroFails | assembler.py:169-188 | a call with no depth left is the recursion error |
| Scenarios.AddProgramPrintsEight | vm.py:23-144 | `MOV 5, r0; ADD r0, 3, r0; WRT r0, 1; HCF` halts with r0 = 8, PC 3 and output "8" |
| Scenarios.PushPopMovesValue | vm.py:119-124 | `PUSH 9; POP r0; HCF` halts with r0 = 9 and an empty stack |
| Scenarios.ReturnSkipsInstructionAfterCall | vm.py:129-133 | `CALL 2; HCF; WRT 'A'; POP PC` skips the HCF after the return, prints "AA" and halts by running off the end |

## Left out

- Python `term_buffer`: it is cleared on byte 0 but never read, so it is not part of the state.
- Python debug printing and `input` in `run`, and both `main` functions: console and file I/O.
- Web `renderRegisters`, the DOM wrapper `assemble()`, `index.js` and `editor.js`: display code.
- The web `TextDecoder` is a parameter of the machine, a total function from bytes to text or nothing. UTF-8 decoding is not modelled.
- Python `\w`, `isdigit` and `upper`, and JavaScript `\d`, `\s` and `toUpperCase`, are modelled on ASCII only.
- JavaScript `in` on plain objects also sees `Object.prototype` keys such as `toString`; the symbol tables are maps without them.
- JavaScript `parseInt` loses precision above 2^53. The model reads digits exactly.
- WebAssembler.ParseValue: JavaScript strings are sequences of UTF-16 code units; the model's strings are sequences of Unicode scalar values. The quoted-character pattern is the one place the web assembler counts code units, and there a character at or above 0x10000 is treated as the two code units it is (`IsCharLiteral`, `WideCharLiteralIsUnknown`).
- WebVm.State.Run: takes a fuel bound, because `run` may loop forever. The same holds for PyVm.State.Run and both class `Run` methods.
- PyAssembler.AssembleLines: macro expansion takes a depth bound. Running out of depth is the `RecursionLimit` error, which stands for Python's recursion error.
- PyAssembler.HandleShorthand: returns the new list. It does not update the caller's list in place.
- The `None` branch of Python `encode_operand` is modelled, but `assemble` never reaches it.
- The warning that Python `handle_shorthand_op` prints for a one-operand `WRT` is console output and is left out.
- Assembling concrete source text end to end is not worked through; the properties are proved for all inputs instead.
- IoEffect (both machines): its own ensures states only well-formedness. Each IO instruction it runs is stated, with the PC advance that follows, by `MovStoresOperand`, `SwapExchanges`, `PushAppends`, `PopTakesTop`, `PopEmptyOnlyAdvances` and `WrtOnlyPrints` (web) or `WrtAppends` (Python).
- Advance, IoTransfer, Run (both machines), ExtraIncrement and Cycle (Python): their own ensures state only well-formedness. What they do is stated by the WebVmProps and PyVmProps lemmas (`CallThenPopPcReturns`, `JreJumpsRelative`, `HcfHalts`, `RunIsStepsThenBanner`, `ExtraIncrementNeverFires`, `CycleIsFetchThenExecute`, `RunComposes` and the rest).
- WebAssembler.AssembleLine, WebAssembler.AssembleTokens, WebAssembler.SecondPassFrom: their own ensures state only well-formedness. The WebAssemblerProps and WebRoundTrip lemmas and the loop methods' ensures state the rest.
- FirstPassFrom (Python): its own ensures states only well-formedness. What each line does is stated by `FirstPassLineCases`, `DefineLine` (the constant or macro bound) and `KeepLine`; the whole pass is worked out only for sources without defines and label prefixes (`FirstPassKeepsPlainLines`).
- MacroBodyFrom: its own ensures gives only the range of the resume index; `MacroBodyIsNonBlankLines` states the body and the stop.
- Disassemble: its own ensures gives the `???` case and the mnemonic. The operand texts are stated through the web assembler reading them back (`WebRoundTrip`); no lemma states the listing text field by field.
- OperandTextsReassemble (both assemblers): covers the three-operand listing form only. Every form the web disassembler prints is read back through the whole web assembler by `WebRoundTrip.DisassemblyReassembles`; for the Python assembler the other forms are not worked through.
- SubstituteLines: its own ensures gives only the line count; `SubstituteLinesComposes` and `SubstituteEach` state each line.
