/**
 * Properties of the browser interpreter that relate several operations, or
 * that pin down one instruction class at a time.
 */
module WebVmProps {
  import opened Isa
  import opened Alu
  import opened Text
  import opened WebVm

  /** Reading a register back right after writing it gives the byte written (r5 included, through RAM). */
  lemma ReadBackAfterSetReg(s: State, idx: RegIndex, value: int)
    requires s.Valid() && idx != 6
    ensures s.SetReg(idx, value).Operand(idx, false) == value % 256
  {
  }

  /** Writing the same register twice is the same as writing it once. */
  lemma SetRegIdempotent(s: State, idx: RegIndex, value: int)
    requires s.Valid()
    ensures s.SetReg(idx, value).SetReg(idx, value) == s.SetReg(idx, value)
  {
  }

  /** r4 selects the RAM cell that r5 then reads, both as operand 5 and as the stored r5. */
  lemma AddressThenData(s: State, address: int)
    requires s.Valid()
    ensures s.SetReg(4, address).Operand(5, false) == s.ram[address % 256]
    ensures s.SetReg(4, address).reg[5] == s.ram[address % 256]
  {
  }

  /**
   * A write to r5 goes to RAM only: operand byte 13 (r5 through the & 7 mask)
   * still reads the old stored r5, while operand byte 5 sees the new value.
   */
  lemma ShadowR5IsStale(s: State, value: int)
    requires s.Valid()
    ensures s.SetReg(5, value).Operand(13, false) == s.reg[5]
    ensures s.SetReg(5, value).Operand(5, false) == value % 256
  {
  }

  /** r0-r3 and r7 are plain storage: setReg just stores the byte. */
  lemma SetPlainRegister(s: State, idx: RegIndex, value: byte)
    requires s.Valid() && (idx < 4 || idx == 7)
    ensures s.SetReg(idx, value) == s.(reg := s.reg[idx := value])
  {
  }

  /** ALU: the result lands in dest & 7 (a plain register here), then PC advances by one. */
  lemma AluWritesDestThenAdvances(s: State, w: Word, decode: Decoder)
    requires s.Valid() && OpClass(w.opcode) == 0
    requires w.dest % 8 < 4
    ensures var r := AluResult(Subtype(w.opcode), s.Operand(w.op1, Imm1(w.opcode)), s.Operand(w.op2, Imm2(w.opcode)));
      s.Execute(w, decode) == s.(reg := s.reg[w.dest % 8 := r][7 := (s.reg[7] as int + 1) % 256])
  {
    var r := AluResult(Subtype(w.opcode), s.Operand(w.op1, Imm1(w.opcode)), s.Operand(w.op2, Imm2(w.opcode)));
    assert s.Execute(w, decode) == s.ExecuteAlu(w);
    SetPlainRegister(s, w.dest % 8, r);
  }

  /** ALU with dest r7: the result is written to PC and then incremented. */
  lemma AluIntoPcThenAdvances(s: State, w: Word, decode: Decoder)
    requires s.Valid() && OpClass(w.opcode) == 0 && w.dest % 8 == 7
    ensures var r := AluResult(Subtype(w.opcode), s.Operand(w.op1, Imm1(w.opcode)), s.Operand(w.op2, Imm2(w.opcode)));
      s.Execute(w, decode) == s.(reg := s.reg[7 := (r + 1) % 256])
  {
    var r := AluResult(Subtype(w.opcode), s.Operand(w.op1, Imm1(w.opcode)), s.Operand(w.op2, Imm2(w.opcode)));
    assert s.Execute(w, decode) == s.ExecuteAlu(w);
    PcWriteThenAdvance(s, r);
  }

  /** Writing PC through setReg and then advancing leaves PC one past the value written. */
  lemma PcWriteThenAdvance(s: State, r: byte)
    requires s.Valid()
    ensures s.SetReg(7, r).Advance() == s.(reg := s.reg[7 := (r + 1) % 256])
  {
    assert s.SetReg(7, r) == s.(reg := s.reg[7 := r]);
  }

  /** COND: PC becomes dest exactly when the test holds, and PC + 1 otherwise; nothing else changes. */
  lemma CondSetsOnlyPc(s: State, w: Word, decode: Decoder)
    requires s.Valid() && OpClass(w.opcode) == 1
    ensures var taken := CondHolds(Subtype(w.opcode), s.Operand(w.op1, Imm1(w.opcode)), s.Operand(w.op2, Imm2(w.opcode)));
      s.Execute(w, decode) == s.(reg := s.reg[7 := if taken then w.dest else (s.reg[7] as int + 1) % 256])
  {
  }

  /**
   * SWAP exchanges the raw register slots (r5 too, not RAM; r7 too, before
   * the increment) unless either is r6, and then advances PC; RAM, the stack
   * and the output are left alone.
   */
  lemma SwapExchanges(s: State, w: Word, decode: Decoder)
    requires s.Valid() && OpClass(w.opcode) == 2 && Subtype(w.opcode) == 1
    ensures var i, j := w.op1 % 8, w.dest % 8;
      var t := s.Execute(w, decode);
      (i != 6 && j != 6 ==> t == s.(reg := s.reg[i := s.reg[j]][j := s.reg[i]]).Advance())
      && (i == 6 || j == 6 ==> t == s.Advance())
  {
  }

  /**
   * MOV stores the operand's value through setReg and advances PC: read back
   * from dest it is the value moved (r0-r5), a move into r4 also loads r5
   * from RAM, a move into r6 only advances PC.
   */
  lemma MovStoresOperand(s: State, w: Word, decode: Decoder)
    requires s.Valid() && OpClass(w.opcode) == 2 && Subtype(w.opcode) == 0
    ensures var v, d := s.Operand(w.op1, Imm1(w.opcode)), w.dest % 8;
      var t := s.Execute(w, decode);
      t.stack == s.stack && t.output == s.output && t.halted == s.halted
      && (d < 6 ==> t.Operand(d, false) == v && t.reg[7] == (s.reg[7] as int + 1) % 256)
      && (d == 4 ==> t.reg[5] == s.ram[v])
      && (d == 6 ==> t == s.Advance())
      && (d == 7 ==> t.reg[7] == (v as int + 1) % 256 && t.ram == s.ram)
  {
    var v, d := s.Operand(w.op1, Imm1(w.opcode)), w.dest % 8;
    assert s.Execute(w, decode) == s.SetReg(d, v).Advance();
    if d < 6 {
      ReadBackAfterSetReg(s, d, v);
    }
  }

  /**
   * ALU into r4, r5 or r6: r4 takes the result and r5 is reloaded from RAM
   * at it; r5 writes the result to RAM at r4 and leaves the registers; r6
   * drops it. PC then advances by one.
   */
  lemma AluWritesSpecialDest(s: State, w: Word, decode: Decoder)
    requires s.Valid() && OpClass(w.opcode) == 0
    ensures var r := AluResult(Subtype(w.opcode), s.Operand(w.op1, Imm1(w.opcode)), s.Operand(w.op2, Imm2(w.opcode)));
      var t := s.Execute(w, decode);
      (w.dest % 8 == 4 ==> t == s.(reg := s.reg[4 := r][5 := s.ram[r]]).Advance())
      && (w.dest % 8 == 5 ==> t == s.(ram := s.ram[s.reg[4] := r]).Advance())
      && (w.dest % 8 == 6 ==> t == s.Advance())
  {
    var r := AluResult(Subtype(w.opcode), s.Operand(w.op1, Imm1(w.opcode)), s.Operand(w.op2, Imm2(w.opcode)));
    assert s.Execute(w, decode) == s.SetReg(w.dest % 8, r).Advance();
    SpecialDestWrite(s, w.dest % 8, r);
  }

  /** setReg into r4, r5 or r6 of a byte, then the PC step. */
  lemma SpecialDestWrite(s: State, d: RegIndex, r: byte)
    requires s.Valid()
    ensures var t := s.SetReg(d, r).Advance();
      (d == 4 ==> t == s.(reg := s.reg[4 := r][5 := s.ram[r]]).Advance())
      && (d == 5 ==> t == s.(ram := s.ram[s.reg[4] := r]).Advance())
      && (d == 6 ==> t == s.Advance())
  {
    ByteIsItsResidue(r);
  }

  /**
   * WRT hands the operand's value and the format bits (op2 & 3) to wrt and
   * advances PC: registers other than PC, RAM, the stack and the halt flag
   * are left alone, formats 1-3 append one character and keep the UTF-8
   * buffer, format 0 feeds the byte to the UTF-8 buffer.
   */
  lemma WrtOnlyPrints(s: State, w: Word, decode: Decoder)
    requires s.Valid() && OpClass(w.opcode) == 2 && Subtype(w.opcode) == 4
    ensures var v, t := s.Operand(w.op1, Imm1(w.opcode)), s.Execute(w, decode);
      t.reg == s.reg[7 := (s.reg[7] as int + 1) % 256] && t.ram == s.ram && t.stack == s.stack
      && t.halted == s.halted
      && (w.op2 % 4 == 1 ==> t.output == s.output + (if v <= 9 then [('0' as int + v) as char] else "?"))
      && (w.op2 % 4 == 2 ==> t.output == s.output + (if v <= 25 then [('A' as int + v) as char] else "?"))
      && (w.op2 % 4 == 3 ==> t.output == s.output + (if v <= 15 then [DigitChar(v, true)] else "?"))
      && (w.op2 % 4 != 0 ==> t.utf8Buffer == s.utf8Buffer)
      && (w.op2 % 4 == 0 ==> t.output == s.HandleUtf8Byte(v, decode).output
                             && t.utf8Buffer == s.HandleUtf8Byte(v, decode).utf8Buffer)
  {
  }

  /** PUSH appends the operand's value and advances PC. */
  lemma PushAppends(s: State, w: Word, decode: Decoder)
    requires s.Valid() && OpClass(w.opcode) == 2 && Subtype(w.opcode) == 2
    ensures s.Execute(w, decode) == s.(stack := s.stack + [s.Operand(w.op1, Imm1(w.opcode))]).Advance()
  {
  }

  /** POP on an empty stack only advances PC. */
  lemma PopEmptyOnlyAdvances(s: State, w: Word, decode: Decoder)
    requires s.Valid() && OpClass(w.opcode) == 2 && Subtype(w.opcode) == 3 && s.stack == []
    ensures s.Execute(w, decode) == s.Advance()
  {
  }

  /**
   * POP on a non-empty stack removes the top and stores it through setReg
   * into dest, then advances PC: read back from dest it is the popped byte
   * (r0-r5), a pop into r6 only drops the top.
   */
  lemma PopTakesTop(s: State, w: Word, decode: Decoder)
    requires s.Valid() && OpClass(w.opcode) == 2 && Subtype(w.opcode) == 3 && s.stack != []
    ensures var top, rest, d := s.stack[|s.stack| - 1], s.stack[..|s.stack| - 1], w.dest % 8;
      var t := s.Execute(w, decode);
      t.stack == rest && t.output == s.output && t.halted == s.halted
      && (d < 6 ==> t.Operand(d, false) == top && t.reg[7] == (s.reg[7] as int + 1) % 256)
      && (d == 6 ==> t == s.(stack := rest).Advance())
      && (d == 7 ==> t.reg[7] == (top as int + 1) % 256 && t.ram == s.ram)
  {
    var top, rest, d := s.stack[|s.stack| - 1], s.stack[..|s.stack| - 1], w.dest % 8;
    var u := s.(stack := rest);
    assert s.Execute(w, decode) == u.SetReg(d, top).Advance();
    if d < 6 {
      ReadBackAfterSetReg(u, d, top);
    }
  }

  /** PUSH then POP into a plain register moves the pushed value there and restores the stack. */
  lemma PushThenPop(s: State, push: Word, pop: Word, decode: Decoder)
    requires s.Valid()
    requires OpClass(push.opcode) == 2 && Subtype(push.opcode) == 2
    requires OpClass(pop.opcode) == 2 && Subtype(pop.opcode) == 3 && pop.dest % 8 < 4
    ensures var t := s.Execute(push, decode).Execute(pop, decode);
      t.stack == s.stack && t.reg[pop.dest % 8] == s.Operand(push.op1, Imm1(push.opcode))
      && t.reg[7] == (s.reg[7] as int + 2) % 256
  {
    var s1 := s.Execute(push, decode);
    assert s1.stack == s.stack + [s.Operand(push.op1, Imm1(push.opcode))];
    assert s1.stack[..|s1.stack| - 1] == s.stack;
  }

  /**
   * CALL pushes the address of the CALL itself and jumps; a later POP into r7
   * restores that address and the POP's own increment resumes execution at
   * the instruction after the CALL.
   */
  lemma CallThenPopPcReturns(s: State, call: Word, pop: Word, decode: Decoder)
    requires s.Valid()
    requires OpClass(call.opcode) == 2 && Subtype(call.opcode) == 5
    requires OpClass(pop.opcode) == 2 && Subtype(pop.opcode) == 3 && pop.dest % 8 == 7
    ensures s.Execute(call, decode).reg[7] == s.Operand(call.op1, Imm1(call.opcode))
    ensures s.Execute(call, decode).stack == s.stack + [s.reg[7]]
    ensures var t := s.Execute(call, decode).Execute(pop, decode);
      t.stack == s.stack && t.reg[7] == (s.reg[7] as int + 1) % 256
  {
    var s1 := s.Execute(call, decode);
    assert s1.stack[..|s1.stack| - 1] == s.stack;
  }

  /** JRE: PC moves by r0 read as a signed byte, modulo 256; nothing else changes. */
  lemma JreJumpsRelative(s: State, w: Word, decode: Decoder)
    requires s.Valid() && OpClass(w.opcode) == 2 && Subtype(w.opcode) == 6
    ensures s.Execute(w, decode) == s.(reg := s.reg[7 := (s.reg[7] + Signed8(s.reg[0])) % 256])
    ensures s.reg[0] == 0 ==> s.Execute(w, decode) == s
  {
  }

  /** HCF sets halted and leaves everything else, PC included, as it was. */
  lemma HcfHalts(s: State, w: Word, decode: Decoder)
    requires s.Valid() && OpClass(w.opcode) == 2 && Subtype(w.opcode) == 7
    ensures s.Execute(w, decode) == s.(halted := true)
  {
  }

  /** Once halted, the machine stays put for any number of steps. */
  lemma {:induction false} HaltedStaysHalted(s: State, program: seq<byte>, decode: Decoder, n: nat)
    requires s.Valid() && s.halted
    ensures StepN(s, program, decode, n) == s
  {
    if n > 0 {
      HaltedStaysHalted(s, program, decode, n - 1);
    }
  }

  /** `n` calls of step. */
  function StepN(s: State, program: seq<byte>, decode: Decoder, n: nat): (t: State)
    requires s.Valid()
    ensures t.Valid()
    decreases n
  {
    if n == 0 then s else StepN(s.Step(program, decode), program, decode, n - 1)
  }

  /** run with enough fuel is `n` steps followed by the banner, once the machine has halted. */
  lemma {:induction false} RunIsStepsThenBanner(s: State, program: seq<byte>, decode: Decoder, fuel: nat)
    requires s.Valid()
    ensures var t := s.Run(program, decode, fuel);
      t.halted ==> (exists n: nat ::
                      n <= fuel && StepN(s, program, decode, n).halted && t == StepN(s, program, decode, n).Print(HaltedBanner))
    decreases fuel
  {
    var t := s.Run(program, decode, fuel);
    if s.halted {
      assert StepN(s, program, decode, 0) == s;
    } else if fuel > 0 {
      var s1 := s.Step(program, decode);
      RunIsStepsThenBanner(s1, program, decode, fuel - 1);
      if t.halted {
        var n: nat :| n <= fuel - 1 && StepN(s1, program, decode, n).halted
          && t == StepN(s1, program, decode, n).Print(HaltedBanner);
        assert StepN(s, program, decode, n + 1) == StepN(s1, program, decode, n);
      }
    }
  }

  /** A run that ends halted has printed the banner last. */
  lemma RunEndsWithBanner(s: State, program: seq<byte>, decode: Decoder, fuel: nat)
    requires s.Valid()
    ensures var t := s.Run(program, decode, fuel);
      t.halted ==> |t.output| >= |HaltedBanner| && t.output[|t.output| - |HaltedBanner|..] == HaltedBanner
  {
    RunIsStepsThenBanner(s, program, decode, fuel);
  }
}
