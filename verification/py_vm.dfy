/**
 * The command-line interpreter MiniMachineVM (vm.py): the same instruction
 * set as the browser interpreter, but registers are plain storage (no RAM
 * window behind r4/r5), CALL pushes the address of the next instruction, and
 * WRT prints straight to standard output.
 *
 * `State` is a value snapshot of the machine whose member functions specify
 * each operation; the class `MiniMachineVM` holds the registers in an array
 * and its methods are proved to move the snapshot as those functions say.
 */
module PyVm {
  import opened Wrappers
  import opened Isa
  import opened Alu
  import opened Text

  /** The terminal reset sequence ESC c that WRT prints for byte 0 in format 0. */
  const ClearScreen: string := [27 as char, 'c']

  datatype State = State(
    reg: seq<byte>,
    stack: seq<byte>,
    halted: bool,
    output: string)
  {
    predicate Valid() {
      |reg| == 8
    }

    function Pc(): byte
      requires Valid()
    {
      reg[7]
    }

    /** get_operand: an immediate is its own value, otherwise reg[val & 7]. */
    function Operand(val: byte, isImm: bool): byte
      requires Valid()
    {
      if isImm then val else reg[val % 8]
    }

    /** set_reg: r6 is reserved and ignores writes; any other register gets value & 0xFF. */
    function SetReg(idx: RegIndex, value: int): (s: State)
      requires Valid()
      ensures s.Valid()
      ensures s.stack == stack && s.halted == halted && s.output == output
      ensures idx == 6 ==> s == this
      ensures idx != 6 ==> s.reg == reg[idx := value % 256]
    {
      if idx == 6 then this else this.(reg := reg[idx := value % 256])
    }

    /** PC = (PC + 1) % 256. */
    function Advance(): (s: State)
      requires Valid()
      ensures s.Valid()
    {
      this.(reg := reg[7 := (reg[7] as int + 1) % 256])
    }

    /** wrt: the text is printed after everything printed before. */
    function Wrt(val: byte, fmt: nat): State {
      this.(output := output + WrtText(val, fmt))
    }

    /** The ALU class: the result goes to dest & 7 through set_reg, then PC advances. */
    function ExecuteAlu(w: Word): State
      requires Valid()
    {
      var a := Operand(w.op1, Imm1(w.opcode));
      var b := Operand(w.op2, Imm2(w.opcode));
      SetReg(w.dest % 8, AluResult(Subtype(w.opcode), a, b)).Advance()
    }

    /** The COND class: a taken branch writes dest into PC, otherwise PC advances. */
    function ExecuteCond(w: Word): State
      requires Valid()
    {
      var a := Operand(w.op1, Imm1(w.opcode));
      var b := Operand(w.op2, Imm2(w.opcode));
      if CondHolds(Subtype(w.opcode), a, b) then SetReg(7, w.dest) else Advance()
    }

    /** The IO class: MOV SWAP PUSH POP WRT fall through to the PC increment; CALL JRE HCF return early. */
    function ExecuteIo(w: Word): State
      requires Valid()
    {
      if Subtype(w.opcode) < 5 then IoEffect(w).Advance() else IoTransfer(w)
    }

    /** MOV SWAP PUSH POP WRT: what each does before the shared PC increment. */
    function IoEffect(w: Word): (s: State)
      requires Valid() && Subtype(w.opcode) < 5
      ensures s.Valid()
    {
      var imm1 := Imm1(w.opcode);
      match Subtype(w.opcode)
      case 0 => SetReg(w.dest % 8, Operand(w.op1, imm1))
      case 1 =>
        var i := w.op1 % 8;
        var j := w.dest % 8;
        if i != 6 && j != 6 then this.(reg := reg[i := reg[j]][j := reg[i]]) else this
      case 2 => this.(stack := stack + [Operand(w.op1, imm1)])
      case 3 =>
        if |stack| > 0
        then this.(stack := stack[..|stack| - 1]).SetReg(w.dest % 8, stack[|stack| - 1])
        else this
      case 4 => Wrt(Operand(w.op1, imm1), w.op2 % 4)
    }

    /** CALL pushes PC + 1 and jumps, JRE jumps relative to PC, HCF halts; none advances PC. */
    function IoTransfer(w: Word): (s: State)
      requires Valid() && Subtype(w.opcode) >= 5
      ensures s.Valid()
    {
      match Subtype(w.opcode)
      case 5 => this.(stack := stack + [(reg[7] as int + 1) % 256]).SetReg(7, Operand(w.op1, Imm1(w.opcode)))
      case 6 => SetReg(7, (reg[7] + Signed8(reg[0])) % 256)
      case 7 => this.(halted := true)
    }

    /** execute: dispatch on the class bits; class 0b11 matches no branch and changes nothing. */
    function Execute(w: Word): (s: State)
      requires Valid()
      ensures s.Valid()
      ensures OpClass(w.opcode) == 3 ==> s == this
    {
      var c := OpClass(w.opcode);
      if c == 0 then ExecuteAlu(w)
      else if c == 1 then ExecuteCond(w)
      else if c == 2 then ExecuteIo(w)
      else this
    }

    /** The check `run` makes after each instruction: advance PC if PC == (PC - 1) % 256. */
    function ExtraIncrement(): (s: State)
      requires Valid()
      ensures s.Valid()
    {
      if !halted && reg[7] == (reg[7] as int - 1) % 256 then Advance() else this
    }

    /**
     * One turn of the `run` loop on a running machine: a fetch past the end
     * of the program halts it, otherwise the instruction is executed and the
     * extra increment check is made.
     */
    function Cycle(program: seq<byte>): (s: State)
      requires Valid()
      ensures s.Valid()
    {
      match InstructionAt(program, reg[7])
      case None => this.(halted := true)
      case Some(w) => Execute(w).ExtraIncrement()
    }

    /** run, with at most `fuel` turns of its loop: cycle while not halted. */
    function Run(program: seq<byte>, fuel: nat): (s: State)
      requires Valid()
      ensures s.Valid()
      decreases fuel
    {
      if halted || fuel == 0 then this
      else Cycle(program).Run(program, fuel - 1)
    }
  }

  /**
   * The text WRT prints for a value in a format: format 0 prints the
   * character (or the reset sequence for 0, nothing above 0x7F); formats 1,
   * 2 and 3 print a decimal digit, a capital letter or an upper-case
   * hexadecimal digit, or "?" when the value is out of range.
   */
  function WrtText(val: byte, fmt: nat): string {
    if fmt == 0 then
      if val == 0 then ClearScreen
      else if val <= 0x7F then [val as char]
      else ""
    else if fmt == 1 then (if val <= 9 then Decimal(val) else "?")
    else if fmt == 2 then (if val <= 25 then [(65 + val) as char] else "?")
    else if fmt == 3 then (if val <= 15 then Numeral(val, 16, true) else "?")
    else ""
  }

  /** A new machine: all registers zero, empty stack, nothing printed. */
  function Initial(): (s: State)
    ensures s.Valid() && !s.halted && s.Pc() == 0
  {
    State(seq(8, _ => 0), [], false, [])
  }

  class MiniMachineVM {
    const reg: array<byte>
    var stack: seq<byte>
    var halted: bool
    var output: string
    const program: seq<byte>

    ghost predicate Valid()
      reads this
    {
      reg.Length == 8
    }

    function Snapshot(): (s: State)
      requires Valid()
      reads this, reg
      ensures s.Valid()
    {
      State(reg[..], stack, halted, output)
    }

    constructor(program: seq<byte>)
      ensures Valid() && fresh(reg)
      ensures this.program == program
      ensures Snapshot() == Initial()
    {
      reg := new byte[8](_ => 0);
      stack := [];
      halted := false;
      output := [];
      this.program := program;
    }

    /** fetch: the four bytes at PC * 4, or None with the machine halted when they run past the end. */
    method Fetch() returns (instr: Option<Word>)
      requires Valid()
      modifies this`halted
      ensures instr == InstructionAt(program, reg[7])
      ensures Snapshot() == if instr.None? then old(Snapshot()).(halted := true) else old(Snapshot())
    {
      var pc := reg[7];
      var idx: int := pc as int * 4;
      if idx + 4 > |program| {
        halted := true;
        return None;
      }
      return Some(Word(program[idx], program[idx + 1], program[idx + 2], program[idx + 3]));
    }

    method GetOperand(val: byte, isImm: bool) returns (r: byte)
      requires Valid()
      ensures r == Snapshot().Operand(val, isImm)
    {
      if isImm {
        return val;
      }
      return reg[val % 8];
    }

    method SetReg(idx: RegIndex, value: int)
      requires Valid()
      modifies reg
      ensures Snapshot() == old(Snapshot()).SetReg(idx, value)
    {
      if idx == 6 {
        return;
      }
      reg[idx] := value % 256;
    }

    method Wrt(val: byte, fmt: nat)
      requires Valid()
      modifies this`output
      ensures Snapshot() == old(Snapshot()).Wrt(val, fmt)
    {
      if fmt == 0 {
        if val == 0 {
          output := output + ClearScreen;
        } else if val <= 0x7F {
          output := output + [val as char];
        }
      } else if fmt == 1 {
        output := output + (if val <= 9 then Decimal(val) else "?");
      } else if fmt == 2 {
        output := output + (if val <= 25 then [(65 + val) as char] else "?");
      } else if fmt == 3 {
        output := output + (if val <= 15 then Numeral(val, 16, true) else "?");
      }
    }

    method Execute(instr: Word)
      requires Valid()
      modifies this, reg
      ensures Snapshot() == old(Snapshot()).Execute(instr)
    {
      var imm1 := Imm1(instr.opcode);
      var imm2 := Imm2(instr.opcode);
      var opclass := OpClass(instr.opcode);
      var subtype := Subtype(instr.opcode);

      if opclass == 0 {
        var a := GetOperand(instr.op1, imm1);
        var b := GetOperand(instr.op2, imm2);
        SetReg(instr.dest % 8, AluResult(subtype, a, b));
        reg[7] := (reg[7] as int + 1) % 256;
        return;
      }

      if opclass == 1 {
        var a := GetOperand(instr.op1, imm1);
        var b := GetOperand(instr.op2, imm2);
        if CondHolds(subtype, a, b) {
          SetReg(7, instr.dest);
        } else {
          reg[7] := (reg[7] as int + 1) % 256;
        }
        return;
      }

      if opclass == 2 {
        ExecuteIo(instr);
      }
    }

    /** The IO branch of execute. */
    method ExecuteIo(instr: Word)
      requires Valid() && OpClass(instr.opcode) == 2
      modifies this, reg
      ensures Snapshot() == old(Snapshot()).ExecuteIo(instr)
    {
      if Subtype(instr.opcode) < 5 {
        IoEffect(instr);
        reg[7] := (reg[7] as int + 1) % 256;
      } else {
        IoTransfer(instr);
      }
    }

    /** MOV SWAP PUSH POP WRT, before the PC increment they share. */
    method IoEffect(instr: Word)
      requires Valid() && Subtype(instr.opcode) < 5
      modifies this`stack, this`output, reg
      ensures Snapshot() == old(Snapshot()).IoEffect(instr)
    {
      var imm1 := Imm1(instr.opcode);
      var subtype := Subtype(instr.opcode);
      if subtype == 0 {
        var val := GetOperand(instr.op1, imm1);
        SetReg(instr.dest % 8, val);
      } else if subtype == 1 {
        var idx1 := instr.op1 % 8;
        var idx2 := instr.dest % 8;
        if idx1 != 6 && idx2 != 6 {
          reg[idx1], reg[idx2] := reg[idx2], reg[idx1];
        }
      } else if subtype == 2 {
        var val := GetOperand(instr.op1, imm1);
        stack := stack + [val];
      } else if subtype == 3 {
        if |stack| > 0 {
          var top := stack[|stack| - 1];
          stack := stack[..|stack| - 1];
          SetReg(instr.dest % 8, top);
        }
      } else {
        var val := GetOperand(instr.op1, imm1);
        Wrt(val, instr.op2 % 4);
      }
    }

    /** CALL JRE HCF, which return without the PC increment. */
    method IoTransfer(instr: Word)
      requires Valid() && Subtype(instr.opcode) >= 5
      modifies this`stack, this`halted, reg
      ensures Snapshot() == old(Snapshot()).IoTransfer(instr)
    {
      var subtype := Subtype(instr.opcode);
      if subtype == 5 {
        var addr := GetOperand(instr.op1, Imm1(instr.opcode));
        stack := stack + [(reg[7] as int + 1) % 256];
        SetReg(7, addr);
      } else if subtype == 6 {
        var offset: int := reg[0];
        if offset >= 0x80 {
          offset := offset - 0x100;
        }
        SetReg(7, (reg[7] + offset) % 256);
      } else {
        halted := true;
      }
    }

    /** run, bounded by `fuel` turns of the loop. */
    method Run(fuel: nat)
      requires Valid()
      modifies this, reg
      ensures Snapshot() == old(Snapshot()).Run(program, fuel)
    {
      var turns := 0;
      while !halted && turns < fuel
        invariant 0 <= turns <= fuel
        invariant old(Snapshot()).Run(program, fuel) == Snapshot().Run(program, fuel - turns)
        decreases fuel - turns
      {
        ghost var before := Snapshot();
        assert before.Run(program, fuel - turns) == before.Cycle(program).Run(program, fuel - turns - 1);
        var instr := Fetch();
        if instr.None? {
          break;
        }
        Execute(instr.value);
        if !halted && reg[7] as int == (reg[7] as int - 1) % 256 {
          // the extra increment: no byte equals its predecessor modulo 256
          assert false;
        }
        assert Snapshot() == before.Cycle(program) by {
          assert Snapshot().ExtraIncrement() == Snapshot();
        }
        turns := turns + 1;
      }
    }
  }
}
