/**
 * Properties of the command-line interpreter (vm.py): one instruction class
 * at a time, the run loop, and the text WRT prints.
 */
module PyVmProps {
  import opened Isa
  import opened Alu
  import opened Text
  import opened PyVm

  /** Registers are plain storage: a write to r4 does not move r5, and operand 13 is r5. */
  lemma NoRamWindow(s: State, value: int)
    requires s.Valid()
    ensures s.SetReg(4, value).Operand(5, false) == s.reg[5]
    ensures s.SetReg(4, value).Operand(4, false) == value % 256
    ensures s.Operand(13, false) == s.Operand(5, false)
  {
  }

  /** set_reg changes exactly one register, and r6 not at all. */
  lemma SetRegChangesOneRegister(s: State, idx: RegIndex, value: int, j: RegIndex)
    requires s.Valid()
    ensures j != idx || idx == 6 ==> s.SetReg(idx, value).reg[j] == s.reg[j]
    ensures j == idx && idx != 6 ==> s.SetReg(idx, value).reg[j] == value % 256
  {
  }

  /** ALU into r0-r5: the result lands in dest & 7, then PC advances by one. */
  lemma AluWritesDestThenAdvances(s: State, w: Word)
    requires s.Valid() && OpClass(w.opcode) == 0 && w.dest % 8 < 6
    ensures var r := AluResult(Subtype(w.opcode), s.Operand(w.op1, Imm1(w.opcode)), s.Operand(w.op2, Imm2(w.opcode)));
      s.Execute(w) == s.(reg := s.reg[w.dest % 8 := r][7 := (s.reg[7] as int + 1) % 256])
  {
    var r := AluResult(Subtype(w.opcode), s.Operand(w.op1, Imm1(w.opcode)), s.Operand(w.op2, Imm2(w.opcode)));
    assert s.Execute(w) == s.SetReg(w.dest % 8, r).Advance();
    WriteThenAdvance(s, w.dest % 8, r);
  }

  /** Writing one of r0-r5 through set_reg and then advancing stores the byte and moves PC on by one. */
  lemma WriteThenAdvance(s: State, idx: RegIndex, r: byte)
    requires s.Valid() && idx < 6
    ensures s.SetReg(idx, r).Advance() == s.(reg := s.reg[idx := r][7 := (s.reg[7] as int + 1) % 256])
  {
  }

  /** ALU into r6: the result is dropped and only PC moves. */
  lemma AluIntoReservedOnlyAdvances(s: State, w: Word)
    requires s.Valid() && OpClass(w.opcode) == 0 && w.dest % 8 == 6
    ensures s.Execute(w) == s.Advance()
  {
  }

  /** ALU into r7: the result is written to PC and then incremented. */
  lemma AluIntoPcThenAdvances(s: State, w: Word)
    requires s.Valid() && OpClass(w.opcode) == 0 && w.dest % 8 == 7
    ensures var r := AluResult(Subtype(w.opcode), s.Operand(w.op1, Imm1(w.opcode)), s.Operand(w.op2, Imm2(w.opcode)));
      s.Execute(w) == s.(reg := s.reg[7 := (r + 1) % 256])
  {
    var r := AluResult(Subtype(w.opcode), s.Operand(w.op1, Imm1(w.opcode)), s.Operand(w.op2, Imm2(w.opcode)));
    assert s.Execute(w) == s.SetReg(7, r).Advance();
    PcWriteThenAdvance(s, r);
  }

  /** Writing PC through set_reg and then advancing leaves PC one past the value written. */
  lemma PcWriteThenAdvance(s: State, r: byte)
    requires s.Valid()
    ensures s.SetReg(7, r).Advance() == s.(reg := s.reg[7 := (r + 1) % 256])
  {
    assert s.SetReg(7, r) == s.(reg := s.reg[7 := r]);
  }

  /** COND: PC becomes dest exactly when the test holds, and PC + 1 otherwise; nothing else changes. */
  lemma CondSetsOnlyPc(s: State, w: Word)
    requires s.Valid() && OpClass(w.opcode) == 1
    ensures var taken := CondHolds(Subtype(w.opcode), s.Operand(w.op1, Imm1(w.opcode)), s.Operand(w.op2, Imm2(w.opcode)));
      s.Execute(w) == s.(reg := s.reg[7 := if taken then w.dest else (s.reg[7] as int + 1) % 256])
  {
  }

  /** NOP (COND subtype 4) never branches, JMP (subtype 0) always does. */
  lemma NopNeverJmpAlways(s: State, w: Word)
    requires s.Valid() && OpClass(w.opcode) == 1
    ensures Subtype(w.opcode) == 4 ==> s.Execute(w) == s.Advance()
    ensures Subtype(w.opcode) == 0 ==> s.Execute(w) == s.(reg := s.reg[7 := w.dest])
  {
  }

  /**
   * SWAP exchanges two registers (r7 too, before the increment) unless
   * either is r6, then advances PC; the stack and the output are left alone.
   */
  lemma SwapExchanges(s: State, w: Word)
    requires s.Valid() && OpClass(w.opcode) == 2 && Subtype(w.opcode) == 1
    ensures var i, j := w.op1 % 8, w.dest % 8;
      var t := s.Execute(w);
      (i != 6 && j != 6 ==> t == s.(reg := s.reg[i := s.reg[j]][j := s.reg[i]]).Advance())
      && (i == 6 || j == 6 ==> t == s.Advance())
  {
  }

  /** MOV copies the operand's value into dest (r6 ignores it) and advances PC. */
  lemma MovStoresOperand(s: State, w: Word)
    requires s.Valid() && OpClass(w.opcode) == 2 && Subtype(w.opcode) == 0
    ensures var v, d := s.Operand(w.op1, Imm1(w.opcode)), w.dest % 8;
      var t := s.Execute(w);
      (d < 6 ==> t == s.(reg := s.reg[d := v][7 := (s.reg[7] as int + 1) % 256]))
      && (d == 6 ==> t == s.Advance())
      && (d == 7 ==> t == s.(reg := s.reg[7 := (v as int + 1) % 256]))
  {
    var v, d := s.Operand(w.op1, Imm1(w.opcode)), w.dest % 8;
    assert s.Execute(w) == s.SetReg(d, v).Advance();
    if d < 6 {
      WriteThenAdvance(s, d, v);
    } else if d == 7 {
      PcWriteThenAdvance(s, v);
    }
  }

  /** PUSH appends the operand's value and advances PC. */
  lemma PushAppends(s: State, w: Word)
    requires s.Valid() && OpClass(w.opcode) == 2 && Subtype(w.opcode) == 2
    ensures s.Execute(w) == s.(stack := s.stack + [s.Operand(w.op1, Imm1(w.opcode))]).Advance()
  {
  }

  /** POP on an empty stack only advances PC. */
  lemma PopEmptyOnlyAdvances(s: State, w: Word)
    requires s.Valid() && OpClass(w.opcode) == 2 && Subtype(w.opcode) == 3 && s.stack == []
    ensures s.Execute(w) == s.Advance()
  {
  }

  /** POP on a non-empty stack removes the top, stores it into dest (r6 ignores it) and advances PC. */
  lemma PopTakesTop(s: State, w: Word)
    requires s.Valid() && OpClass(w.opcode) == 2 && Subtype(w.opcode) == 3 && s.stack != []
    ensures var top, rest, d := s.stack[|s.stack| - 1], s.stack[..|s.stack| - 1], w.dest % 8;
      var t := s.Execute(w);
      (d < 6 ==> t == s.(stack := rest, reg := s.reg[d := top][7 := (s.reg[7] as int + 1) % 256]))
      && (d == 6 ==> t == s.(stack := rest).Advance())
      && (d == 7 ==> t == s.(stack := rest, reg := s.reg[7 := (top as int + 1) % 256]))
  {
    var top, rest, d := s.stack[|s.stack| - 1], s.stack[..|s.stack| - 1], w.dest % 8;
    var u := s.(stack := rest);
    assert s.Execute(w) == u.SetReg(d, top).Advance();
    if d < 6 {
      WriteThenAdvance(u, d, top);
    } else if d == 7 {
      PcWriteThenAdvance(u, top);
    }
  }

  /** PUSH then POP into r0-r5 moves the pushed value there and restores the stack. */
  lemma PushThenPop(s: State, push: Word, pop: Word)
    requires s.Valid()
    requires OpClass(push.opcode) == 2 && Subtype(push.opcode) == 2
    requires OpClass(pop.opcode) == 2 && Subtype(pop.opcode) == 3 && pop.dest % 8 < 6
    ensures var t := s.Execute(push).Execute(pop);
      t.stack == s.stack && t.reg[pop.dest % 8] == s.Operand(push.op1, Imm1(push.opcode))
      && t.reg[7] == (s.reg[7] as int + 2) % 256 && t.output == s.output
  {
    var s1 := s.Execute(push);
    assert s1.stack == s.stack + [s.Operand(push.op1, Imm1(push.opcode))];
    assert s1.stack[..|s1.stack| - 1] == s.stack;
  }

  /**
   * CALL pushes the address of the next instruction and jumps. Every way of
   * putting a popped address back into PC goes through an increment, so a
   * POP into r7 resumes two instructions after the CALL, not one.
   */
  lemma CallThenPopPcSkipsOne(s: State, call: Word, pop: Word)
    requires s.Valid()
    requires OpClass(call.opcode) == 2 && Subtype(call.opcode) == 5
    requires OpClass(pop.opcode) == 2 && Subtype(pop.opcode) == 3 && pop.dest % 8 == 7
    ensures s.Execute(call).reg[7] == s.Operand(call.op1, Imm1(call.opcode))
    ensures s.Execute(call).stack == s.stack + [(s.reg[7] as int + 1) % 256]
    ensures var t := s.Execute(call).Execute(pop);
      t.stack == s.stack && t.reg[7] == (s.reg[7] as int + 2) % 256
  {
    var s1 := s.Execute(call);
    assert s1.stack[..|s1.stack| - 1] == s.stack;
  }

  /** JRE: PC moves by r0 read as a signed byte, modulo 256; nothing else changes. */
  lemma JreJumpsRelative(s: State, w: Word)
    requires s.Valid() && OpClass(w.opcode) == 2 && Subtype(w.opcode) == 6
    ensures s.Execute(w) == s.(reg := s.reg[7 := (s.reg[7] + Signed8(s.reg[0])) % 256])
    ensures s.reg[0] == 0 ==> s.Execute(w) == s
  {
  }

  /** HCF sets halted and leaves everything else, PC included, as it was. */
  lemma HcfHalts(s: State, w: Word)
    requires s.Valid() && OpClass(w.opcode) == 2 && Subtype(w.opcode) == 7
    ensures s.Execute(w) == s.(halted := true)
  {
  }

  /** WRT appends its text to the output and changes nothing else but PC. */
  lemma WrtAppends(s: State, w: Word)
    requires s.Valid() && OpClass(w.opcode) == 2 && Subtype(w.opcode) == 4
    ensures var t := s.Execute(w);
      t.output == s.output + WrtText(s.Operand(w.op1, Imm1(w.opcode)), w.op2 % 4)
      && t.reg == s.reg[7 := (s.reg[7] as int + 1) % 256] && t.stack == s.stack && t.halted == s.halted
  {
  }

  /** No byte is its own predecessor modulo 256. */
  lemma NoFixedPredecessor(x: byte)
    ensures x != (x as int - 1) % 256
  {
    if x == 0 {
      assert (x as int - 1) % 256 == 255;
    }
  }

  /** The extra increment in the run loop never fires. */
  lemma ExtraIncrementNeverFires(s: State)
    requires s.Valid()
    ensures s.ExtraIncrement() == s
  {
    NoFixedPredecessor(s.reg[7]);
  }

  /** So a turn of the run loop is a fetch and an execute, nothing more. */
  lemma CycleIsFetchThenExecute(s: State, program: seq<byte>)
    requires s.Valid()
    ensures InstructionAt(program, s.Pc()).None? ==> s.Cycle(program) == s.(halted := true)
    ensures InstructionAt(program, s.Pc()).Some? ==> s.Cycle(program) == s.Execute(InstructionAt(program, s.Pc()).value)
  {
    if InstructionAt(program, s.Pc()).Some? {
      ExtraIncrementNeverFires(s.Execute(InstructionAt(program, s.Pc()).value));
    }
  }

  /** A class-3 opcode changes nothing, so a machine that reaches one spins without halting. */
  lemma {:induction false} ClassThreeSpins(s: State, program: seq<byte>, fuel: nat)
    requires s.Valid() && !s.halted
    requires InstructionAt(program, s.Pc()).Some? && OpClass(InstructionAt(program, s.Pc()).value.opcode) == 3
    ensures s.Run(program, fuel) == s
    decreases fuel
  {
    if fuel > 0 {
      CycleIsFetchThenExecute(s, program);
      ClassThreeSpins(s, program, fuel - 1);
    }
  }

  /** Running for a + b turns is running for a turns and then for b more. */
  lemma {:induction false} RunComposes(s: State, program: seq<byte>, a: nat, b: nat)
    requires s.Valid()
    ensures s.Run(program, a + b) == s.Run(program, a).Run(program, b)
    decreases a
  {
    if s.halted {
      assert s.Run(program, a) == s && s.Run(program, b) == s && s.Run(program, a + b) == s;
    } else if a == 0 {
      assert s.Run(program, a) == s && a + b == b;
    } else {
      var c := s.Cycle(program);
      assert s.Run(program, a + b) == c.Run(program, (a - 1) + b);
      assert s.Run(program, a) == c.Run(program, a - 1);
      RunComposes(c, program, a - 1, b);
    }
  }

  /** Text once printed stays printed: an instruction only appends to the output. */
  lemma ExecuteAppendsOutput(s: State, w: Word)
    requires s.Valid()
    ensures StartsWith(s.Execute(w).output, s.output)
  {
    var t := s.Execute(w);
    assert t.output[..|s.output|] == s.output;
  }

  /** The same for a whole run. */
  lemma {:induction false} RunAppendsOutput(s: State, program: seq<byte>, fuel: nat)
    requires s.Valid()
    ensures StartsWith(s.Run(program, fuel).output, s.output)
    decreases fuel
  {
    if !s.halted && fuel > 0 {
      var s1 := s.Cycle(program);
      CycleIsFetchThenExecute(s, program);
      if InstructionAt(program, s.Pc()).Some? {
        ExecuteAppendsOutput(s, InstructionAt(program, s.Pc()).value);
      }
      RunAppendsOutput(s1, program, fuel - 1);
      var t := s.Run(program, fuel);
      assert t.output[..|s.output|] == t.output[..|s1.output|][..|s.output|];
    }
  }

  /**
   * The loop stops only on a halted machine: once a run ends halted, more
   * fuel changes nothing, and a run that ends running goes on with one more
   * turn of the loop when given one more unit of fuel.
   */
  lemma {:induction false} RunStopsOnlyWhenHalted(s: State, program: seq<byte>, a: nat, b: nat)
    requires s.Valid()
    ensures s.Run(program, a).halted ==> s.Run(program, a + b) == s.Run(program, a)
    ensures !s.Run(program, a).halted ==> s.Run(program, a + 1) == s.Run(program, a).Cycle(program)
  {
    RunComposes(s, program, a, b);
    RunComposes(s, program, a, 1);
  }

  /** Formats 1-3 print one character; it is "?" exactly when the value is beyond the format's range. */
  lemma WrtPrintsOneCharacter(val: byte, fmt: nat)
    requires 1 <= fmt <= 3
    ensures |WrtText(val, fmt)| == 1
    ensures WrtText(val, fmt) == "?" <==> val > (if fmt == 1 then 9 else if fmt == 2 then 25 else 15)
  {
    if fmt == 1 && val <= 9 {
      assert Decimal(val) == [DigitChar(val, false)];
    } else if fmt == 3 && val <= 15 {
      assert Numeral(val, 16, true) == [DigitChar(val, true)];
    }
  }

  /** In range, the character names the value: a decimal digit, the letter at that place, a hex digit. */
  lemma WrtCharacterNamesValue(val: byte, fmt: nat)
    requires 1 <= fmt <= 3 && val <= (if fmt == 1 then 9 else if fmt == 2 then 25 else 15)
    ensures fmt == 1 ==> WrtText(val, fmt) == [('0' as int + val) as char]
    ensures fmt == 2 ==> WrtText(val, fmt) == [('A' as int + val) as char]
    ensures fmt == 3 ==> DigitValue(WrtText(val, fmt)[0]) == val && !('a' <= WrtText(val, fmt)[0] <= 'z')
  {
    if fmt == 1 {
      assert Decimal(val) == [DigitChar(val, false)];
    } else if fmt == 3 {
      assert Numeral(val, 16, true) == [DigitChar(val, true)];
    }
  }

  /** Format 0: byte 0 resets the terminal, 1-0x7F print that character, larger bytes print nothing. */
  lemma WrtFormatZero(val: byte)
    ensures val == 0 ==> WrtText(val, 0) == ClearScreen
    ensures 0 < val <= 0x7F ==> WrtText(val, 0) == [val as char]
    ensures val > 0x7F ==> WrtText(val, 0) == []
  {
  }
}
