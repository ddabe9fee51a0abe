/**
 * Small programs worked through the command-line interpreter, one cycle at
 * a time: what each instruction leaves in the registers, on the stack and
 * on the terminal.
 */
module Scenarios {
  import opened Wrappers
  import opened Isa
  import opened PyVm
  import PyVmProps
  import Text
  import Alu

  /** A cycle is the execution of the instruction the PC points at. */
  lemma CycleExecutes(s: State, program: seq<byte>, w: Word, t: State)
    requires s.Valid() && InstructionAt(program, s.Pc()) == Some(w) && s.Execute(w) == t
    ensures s.Cycle(program) == t
  {
    PyVmProps.CycleIsFetchThenExecute(s, program);
  }

  /** A machine that has not halted runs one cycle and then the rest. */
  lemma RunUnrolls(s: State, program: seq<byte>, fuel: nat)
    requires s.Valid() && !s.halted
    ensures s.Run(program, fuel + 1) == s.Cycle(program).Run(program, fuel)
  {
  }

  /** The machine with r0 and the PC given, every other register zero. */
  function M(r0: byte, pc: byte, stack: seq<byte>, halted: bool, output: string): (s: State)
    ensures s.Valid()
  {
    State([r0, 0, 0, 0, 0, 0, 0, pc], stack, halted, output)
  }

  /** The machine before the first cycle. */
  lemma InitialMachine()
    ensures Initial() == M(0, 0, [], false, "")
  {
  }

  /** Advancing moves the PC on by one and leaves the rest alone. */
  lemma AdvanceM(r0: byte, pc: byte, stack: seq<byte>, output: string)
    requires pc < 255
    ensures M(r0, pc, stack, false, output).Advance() == M(r0, pc + 1, stack, false, output)
  {
  }

  /** WRT appends the text and advances. */
  lemma WrtStep(s: State, w: Word, text: string)
    requires s.Valid() && OpClass(w.opcode) == 2 && Subtype(w.opcode) == 4
    requires WrtText(s.Operand(w.op1, Imm1(w.opcode)), w.op2 % 4) == text
    ensures s.Execute(w) == s.(output := s.output + text).Advance()
  {
    PyVmProps.WrtAppends(s, w);
  }

  /** MOV into r0..r5 writes the operand there and advances. */
  lemma MovStep(s: State, w: Word)
    requires s.Valid() && OpClass(w.opcode) == 2 && Subtype(w.opcode) == 0 && w.dest % 8 < 6
    ensures s.Execute(w) == s.(reg := s.reg[w.dest % 8 := s.Operand(w.op1, Imm1(w.opcode))][7 := (s.reg[7] as int + 1) % 256])
  {
    PyVmProps.WriteThenAdvance(s, w.dest % 8, s.Operand(w.op1, Imm1(w.opcode)));
  }

  /** CALL pushes the address after it and jumps to its operand, without the increment. */
  lemma CallStep(s: State, w: Word)
    requires s.Valid() && OpClass(w.opcode) == 2 && Subtype(w.opcode) == 5
    ensures s.Execute(w) == s.(stack := s.stack + [(s.reg[7] as int + 1) % 256], reg := s.reg[7 := s.Operand(w.op1, Imm1(w.opcode))])
  {
  }

  /** A single decimal digit prints as itself. */
  lemma DigitText(d: byte)
    requires d <= 9
    ensures WrtText(d, 1) == [('0' as int + d) as char]
  {
    assert Text.Decimal(d) == [Text.DigitChar(d, false)];
  }

  /**
   * The words of `MOV 5, r0` / `ADD r0, 3, r0` / `WRT r0, 1` / `HCF` as the
   * command-line assembler completes them: MOV 5, 0, r0; ADD r0, 3, r0;
   * WRT r0, 1, 0; HCF 0, 0, 0.
   */
  const AddProgram: seq<byte> := [112, 5, 0, 0, 34, 0, 3, 0, 52, 0, 1, 0, 119, 0, 0, 0]

  /** The four instructions of AddProgram. */
  lemma AddInstructions()
    ensures InstructionAt(AddProgram, 0) == Some(Word(112, 5, 0, 0))
    ensures InstructionAt(AddProgram, 1) == Some(Word(34, 0, 3, 0))
    ensures InstructionAt(AddProgram, 2) == Some(Word(52, 0, 1, 0))
    ensures InstructionAt(AddProgram, 3) == Some(Word(119, 0, 0, 0))
  {
  }

  lemma AddMov()
    ensures M(0, 0, [], false, "").Cycle(AddProgram) == M(5, 1, [], false, "")
  {
    var s, w, t := M(0, 0, [], false, ""), Word(112, 5, 0, 0), M(5, 1, [], false, "");
    assert InstructionAt(AddProgram, s.Pc()) == Some(w) by {
      AddInstructions();
    }
    assert s.Execute(w) == t by {
      assert OpClass(w.opcode) == 2 && Subtype(w.opcode) == 0 && w.dest % 8 == 0;
      MovStep(s, w);
      assert s.reg[0 := 5][7 := 1] == t.reg;
    }
    CycleExecutes(s, AddProgram, w, t);
  }

  lemma AddAdd()
    ensures M(5, 1, [], false, "").Cycle(AddProgram) == M(8, 2, [], false, "")
  {
    var s := M(5, 1, [], false, "");
    var w := Word(34, 0, 3, 0);
    assert OpClass(34) == 0 && Subtype(34) == 2 && !Imm1(34) && Imm2(34);
    assert s.Operand(0, false) == 5 && s.Operand(3, true) == 3;
    assert Alu.AluResult(2, 5, 3) == 8;
    PyVmProps.AluWritesDestThenAdvances(s, w);
    assert s.Execute(w) == s.(reg := s.reg[0 := 8][7 := 2]);
    assert s.reg[0 := 8][7 := 2] == M(8, 2, [], false, "").reg;
    AddInstructions();
    CycleExecutes(s, AddProgram, w, M(8, 2, [], false, ""));
  }

  lemma AddWrt()
    ensures M(8, 2, [], false, "").Cycle(AddProgram) == M(8, 3, [], false, "8")
  {
    DigitText(8);
    AddInstructions();
    WrtStep(M(8, 2, [], false, ""), Word(52, 0, 1, 0), "8");
    AdvanceM(8, 2, [], "8");
    CycleExecutes(M(8, 2, [], false, ""), AddProgram, Word(52, 0, 1, 0), M(8, 3, [], false, "8"));
  }

  lemma AddHcf()
    ensures M(8, 3, [], false, "8").Cycle(AddProgram) == M(8, 3, [], true, "8")
  {
    PyVmProps.HcfHalts(M(8, 3, [], false, "8"), Word(119, 0, 0, 0));
    AddInstructions();
    CycleExecutes(M(8, 3, [], false, "8"), AddProgram, Word(119, 0, 0, 0), M(8, 3, [], true, "8"));
  }

  /** The program adds 5 and 3, prints the sum as one decimal digit and halts at the HCF. */
  lemma AddProgramPrintsEight()
    ensures Initial().Run(AddProgram, 5) == M(8, 3, [], true, "8")
  {
    InitialMachine();
    AddMov();
    AddAdd();
    AddWrt();
    AddHcf();
    RunUnrolls(M(0, 0, [], false, ""), AddProgram, 4);
    RunUnrolls(M(5, 1, [], false, ""), AddProgram, 3);
    RunUnrolls(M(8, 2, [], false, ""), AddProgram, 2);
    RunUnrolls(M(8, 3, [], false, "8"), AddProgram, 1);
  }

  /** `PUSH 9` / `POP r0` / `HCF`: PUSH 9, 0, 0; POP 0, 0, r0; HCF 0, 0, 0. */
  const PushPopProgram: seq<byte> := [114, 9, 0, 0, 115, 0, 0, 0, 119, 0, 0, 0]

  /** The three instructions of PushPopProgram. */
  lemma PushPopInstructions()
    ensures InstructionAt(PushPopProgram, 0) == Some(Word(114, 9, 0, 0))
    ensures InstructionAt(PushPopProgram, 1) == Some(Word(115, 0, 0, 0))
    ensures InstructionAt(PushPopProgram, 2) == Some(Word(119, 0, 0, 0))
  {
  }

  lemma PushNine()
    ensures M(0, 0, [], false, "").Cycle(PushPopProgram) == M(0, 1, [9], false, "")
  {
    PyVmProps.PushAppends(M(0, 0, [], false, ""), Word(114, 9, 0, 0));
    PushPopInstructions();
    CycleExecutes(M(0, 0, [], false, ""), PushPopProgram, Word(114, 9, 0, 0), M(0, 1, [9], false, ""));
  }

  lemma PopNine()
    ensures M(0, 1, [9], false, "").Cycle(PushPopProgram) == M(9, 2, [], false, "")
  {
    PushPopInstructions();
    CycleExecutes(M(0, 1, [9], false, ""), PushPopProgram, Word(115, 0, 0, 0), M(9, 2, [], false, ""));
  }

  lemma PushPopHcf()
    ensures M(9, 2, [], false, "").Cycle(PushPopProgram) == M(9, 2, [], true, "")
  {
    PyVmProps.HcfHalts(M(9, 2, [], false, ""), Word(119, 0, 0, 0));
    PushPopInstructions();
    CycleExecutes(M(9, 2, [], false, ""), PushPopProgram, Word(119, 0, 0, 0), M(9, 2, [], true, ""));
  }

  /** What is pushed is popped: r0 gets 9 and the stack is empty again. */
  lemma PushPopMovesValue()
    ensures Initial().Run(PushPopProgram, 4) == M(9, 2, [], true, "")
  {
    InitialMachine();
    PushNine();
    PopNine();
    PushPopHcf();
    RunUnrolls(M(0, 0, [], false, ""), PushPopProgram, 3);
    RunUnrolls(M(0, 1, [9], false, ""), PushPopProgram, 2);
    RunUnrolls(M(9, 2, [], false, ""), PushPopProgram, 1);
  }

  /**
   * `CALL 2, 0, 0` / `HCF` / `WRT 'A'` / `POP PC` at 0, 1, 2 and 3: CALL
   * pushes 1 and jumps to the routine at 2; the return pops 1 into the PC,
   * and the increment after POP lands on 2, the routine again, not on the
   * HCF after the call. The second time round the stack is empty, POP
   * leaves the PC alone, and the program runs off its end.
   */
  const CallProgram: seq<byte> := [117, 2, 0, 0, 119, 0, 0, 0, 116, 65, 0, 0, 115, 0, 0, 7]

  /** The four instructions of CallProgram. */
  lemma CallInstructions()
    ensures InstructionAt(CallProgram, 0) == Some(Word(117, 2, 0, 0))
    ensures InstructionAt(CallProgram, 2) == Some(Word(116, 65, 0, 0))
    ensures InstructionAt(CallProgram, 3) == Some(Word(115, 0, 0, 7))
    ensures InstructionAt(CallProgram, 4) == None
  {
  }

  lemma CallTwo()
    ensures M(0, 0, [], false, "").Cycle(CallProgram) == M(0, 2, [1], false, "")
  {
    CallInstructions();
    CallStep(M(0, 0, [], false, ""), Word(117, 2, 0, 0));
    assert M(0, 0, [], false, "").reg[7 := 2] == M(0, 2, [1], false, "").reg;
    CycleExecutes(M(0, 0, [], false, ""), CallProgram, Word(117, 2, 0, 0), M(0, 2, [1], false, ""));
  }

  /** WRT 'A' at 2, with the stack and output given. */
  lemma CallWrt(stack: seq<byte>, output: string, after: string)
    requires after == output + "A"
    ensures M(0, 2, stack, false, output).Cycle(CallProgram) == M(0, 3, stack, false, after)
  {
    assert WrtText(65, 0) == "A";
    WrtStep(M(0, 2, stack, false, output), Word(116, 65, 0, 0), "A");
    AdvanceM(0, 2, stack, after);
    CallInstructions();
    CycleExecutes(M(0, 2, stack, false, output), CallProgram, Word(116, 65, 0, 0), M(0, 3, stack, false, after));
  }

  lemma CallReturn()
    ensures M(0, 3, [1], false, "A").Cycle(CallProgram) == M(0, 2, [], false, "A")
  {
    CallInstructions();
    CycleExecutes(M(0, 3, [1], false, "A"), CallProgram, Word(115, 0, 0, 7), M(0, 2, [], false, "A"));
  }

  lemma CallPopEmpty()
    ensures M(0, 3, [], false, "AA").Cycle(CallProgram) == M(0, 4, [], false, "AA")
  {
    PyVmProps.PopEmptyOnlyAdvances(M(0, 3, [], false, "AA"), Word(115, 0, 0, 7));
    AdvanceM(0, 3, [], "AA");
    CallInstructions();
    CycleExecutes(M(0, 3, [], false, "AA"), CallProgram, Word(115, 0, 0, 7), M(0, 4, [], false, "AA"));
  }

  lemma CallRunsOff()
    ensures M(0, 4, [], false, "AA").Cycle(CallProgram) == M(0, 4, [], true, "AA")
  {
    CallInstructions();
    PyVmProps.CycleIsFetchThenExecute(M(0, 4, [], false, "AA"), CallProgram);
  }

  /** The routine runs twice: once called, once again where the return lands. */
  lemma ReturnSkipsInstructionAfterCall()
    ensures Initial().Run(CallProgram, 6) == M(0, 4, [], true, "AA")
  {
    InitialMachine();
    CallTwo();
    CallWrt([1], "", "A");
    CallReturn();
    CallWrt([], "A", "AA");
    CallPopEmpty();
    CallRunsOff();
    RunUnrolls(M(0, 0, [], false, ""), CallProgram, 5);
    RunUnrolls(M(0, 2, [1], false, ""), CallProgram, 4);
    RunUnrolls(M(0, 3, [1], false, "A"), CallProgram, 3);
    RunUnrolls(M(0, 2, [], false, "A"), CallProgram, 2);
    RunUnrolls(M(0, 3, [], false, "AA"), CallProgram, 1);
    RunUnrolls(M(0, 4, [], false, "AA"), CallProgram, 0);
  }
}
