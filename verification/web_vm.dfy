/**
 * The browser interpreter MiniMachineVM (web/src/vm.js): eight byte registers
 * with r7 as the program counter, 256 bytes of RAM reached through the r4/r5
 * pair, an unbounded stack, a halted flag and a UTF-8 byte buffer for output.
 *
 * `State` is a value snapshot of the machine and its member functions are the
 * specification of each operation; the class `MiniMachineVM` holds the same
 * state in mutable fields and arrays and each of its methods is proved to
 * move its snapshot exactly as the matching function says.
 */
module WebVm {
  import opened Wrappers
  import opened Isa
  import opened Alu
  import opened Text

  /**
   * The strict UTF-8 decoder the interpreter calls on its buffered bytes:
   * Some(text) when they decode, None when decoding throws.
   */
  type Decoder = seq<byte> -> Option<string>

  /** What `run` prints once the machine has halted. */
  const HaltedBanner: string := "\n[Program Halted]\n"

  datatype State = State(
    reg: seq<byte>,
    ram: seq<byte>,
    stack: seq<byte>,
    halted: bool,
    utf8Buffer: seq<byte>,
    output: string)
  {
    predicate Valid() {
      |reg| == 8 && |ram| == 256
    }

    function Pc(): byte
      requires Valid()
    {
      reg[7]
    }

    /**
     * getOperand: an immediate is its own value; register operand 5 reads
     * RAM at r4; any other register operand reads reg[val & 7], so 13 reads
     * the stored r5 and not RAM.
     */
    function Operand(val: byte, isImm: bool): byte
      requires Valid()
    {
      if isImm then val
      else if val == 5 then ram[reg[4]]
      else reg[val % 8]
    }

    /**
     * setReg: r6 is read-only; a write to r5 goes to RAM at r4 and leaves the
     * registers alone; a write to r4 also loads r5 from RAM at the new address.
     * The value is reduced to a byte (`& 0xff`).
     */
    function SetReg(idx: RegIndex, value: int): (s: State)
      requires Valid()
      ensures s.Valid()
      ensures s.stack == stack && s.halted == halted && s.utf8Buffer == utf8Buffer && s.output == output
      ensures idx == 6 ==> s == this
      ensures idx == 5 ==> s.reg == reg && s.ram == ram[reg[4] := value % 256]
      ensures idx == 4 ==> s.ram == ram && s.reg == reg[4 := value % 256][5 := ram[value % 256]]
      ensures idx != 4 && idx != 5 && idx != 6 ==> s.ram == ram && s.reg == reg[idx := value % 256]
    {
      if idx == 6 then this
      else
        var v := value % 256;
        var written := if idx == 5 then this.(ram := ram[reg[4] := v]) else this.(reg := reg[idx := v]);
        if idx == 4 then written.(reg := written.reg[5 := written.ram[v]]) else written
    }

    /** PC = (PC + 1) % 256, written straight into reg[7]. */
    function Advance(): (s: State)
      requires Valid()
      ensures s.Valid()
    {
      this.(reg := reg[7 := (reg[7] as int + 1) % 256])
    }

    /** printOutput: text is appended to the output element. */
    function Print(text: string): State {
      this.(output := output + text)
    }

    /**
     * handleUtf8Byte: byte 0 clears the output element and the buffer; any
     * other byte is buffered, and once the buffer decodes its text is printed
     * and the buffer emptied.
     */
    function HandleUtf8Byte(b: byte, decode: Decoder): (s: State)
      ensures s.reg == reg && s.ram == ram && s.stack == stack && s.halted == halted
      ensures b == 0 ==> s.output == [] && s.utf8Buffer == []
      ensures b != 0 && decode(utf8Buffer + [b]).Some? ==>
        s.output == output + decode(utf8Buffer + [b]).value && s.utf8Buffer == []
      ensures b != 0 && decode(utf8Buffer + [b]).None? ==>
        s.output == output && s.utf8Buffer == utf8Buffer + [b]
    {
      if b == 0 then this.(output := [], utf8Buffer := [])
      else
        var buffer := utf8Buffer + [b];
        match decode(buffer)
        case Some(text) => this.Print(text).(utf8Buffer := [])
        case None => this.(utf8Buffer := buffer)
    }

    /**
     * wrt: format 0 feeds the UTF-8 buffer; 1 prints a decimal digit, 2 a
     * capital letter, 3 an upper-case hexadecimal digit, each "?" when out of range.
     */
    function Wrt(val: byte, fmt: nat, decode: Decoder): (s: State)
      ensures s.reg == reg && s.ram == ram && s.stack == stack && s.halted == halted
      ensures fmt == 1 ==> s.output == output + (if val <= 9 then [('0' as int + val) as char] else "?")
      ensures fmt == 2 ==> s.output == output + (if val <= 25 then [('A' as int + val) as char] else "?")
      ensures fmt == 3 ==> s.output == output + (if val <= 15 then [DigitChar(val, true)] else "?")
      ensures fmt > 3 ==> s == this
    {
      if fmt == 0 then HandleUtf8Byte(val, decode)
      else if fmt == 1 then Print(if val <= 9 then Decimal(val) else "?")
      else if fmt == 2 then Print(if val <= 25 then [(65 + val) as char] else "?")
      else if fmt == 3 then Print(if val <= 15 then Numeral(val, 16, true) else "?")
      else this
    }

    /** The ALU class: the result goes through setReg to dest & 7, then PC advances. */
    function ExecuteAlu(w: Word): State
      requires Valid()
    {
      var a := Operand(w.op1, Imm1(w.opcode));
      var b := Operand(w.op2, Imm2(w.opcode));
      SetReg(w.dest % 8, AluResult(Subtype(w.opcode), a, b)).Advance()
    }

    /** The COND class: a taken branch sets PC to dest, otherwise PC advances. */
    function ExecuteCond(w: Word): State
      requires Valid()
    {
      var a := Operand(w.op1, Imm1(w.opcode));
      var b := Operand(w.op2, Imm2(w.opcode));
      if CondHolds(Subtype(w.opcode), a, b) then SetReg(7, w.dest) else Advance()
    }

    /** The IO class: MOV SWAP PUSH POP WRT break out and PC advances; CALL JRE HCF return early. */
    function ExecuteIo(w: Word, decode: Decoder): State
      requires Valid()
    {
      if Subtype(w.opcode) < 5 then IoEffect(w, decode).Advance() else IoTransfer(w)
    }

    /** MOV SWAP PUSH POP WRT: what each does before the shared PC increment. */
    function IoEffect(w: Word, decode: Decoder): (s: State)
      requires Valid() && Subtype(w.opcode) < 5
      ensures s.Valid()
    {
      var imm1 := Imm1(w.opcode);
      match Subtype(w.opcode)
      case 0 => SetReg(w.dest % 8, Operand(w.op1, imm1))
      case 1 =>
        var i := w.op1 % 8;
        var j := w.dest % 8;
        if i != 6 && j != 6 then this.(reg := reg[i := reg[j]][j := reg[i]]) else this
      case 2 => this.(stack := stack + [Operand(w.op1, imm1)])
      case 3 =>
        if |stack| > 0
        then this.(stack := stack[..|stack| - 1]).SetReg(w.dest % 8, stack[|stack| - 1])
        else this
      case 4 => Wrt(Operand(w.op1, imm1), w.op2 % 4, decode)
    }

    /** CALL pushes PC and jumps, JRE jumps relative to PC, HCF halts; none of them advances PC. */
    function IoTransfer(w: Word): (s: State)
      requires Valid() && Subtype(w.opcode) >= 5
      ensures s.Valid()
    {
      match Subtype(w.opcode)
      case 5 => this.(stack := stack + [reg[7]]).SetReg(7, Operand(w.op1, Imm1(w.opcode)))
      case 6 => SetReg(7, (reg[7] + Signed8(reg[0])) % 256)
      case 7 => this.(halted := true)
    }

    /** execute: dispatch on the class bits; class 0b11 does nothing at all. */
    function Execute(w: Word, decode: Decoder): (s: State)
      requires Valid()
      ensures s.Valid()
      ensures OpClass(w.opcode) == 3 ==> s == this
    {
      var c := OpClass(w.opcode);
      if c == 0 then ExecuteAlu(w)
      else if c == 1 then ExecuteCond(w)
      else if c == 2 then ExecuteIo(w, decode)
      else this
    }

    /**
     * step: nothing happens on a halted machine; a fetch past the end of the
     * program halts it; otherwise the fetched instruction is executed.
     */
    function Step(program: seq<byte>, decode: Decoder): (s: State)
      requires Valid()
      ensures s.Valid()
      ensures halted ==> s == this
      ensures !halted && Pc() * 4 + 4 > |program| ==> s == this.(halted := true)
    {
      if halted then this
      else match InstructionAt(program, reg[7])
        case None => this.(halted := true)
        case Some(w) => Execute(w, decode)
    }

    /**
     * run, with at most `fuel` steps: step until halted, then print the
     * banner. When the fuel runs out first nothing is printed.
     */
    function Run(program: seq<byte>, decode: Decoder, fuel: nat): (s: State)
      requires Valid()
      ensures s.Valid()
      decreases fuel
    {
      if halted then Print(HaltedBanner)
      else if fuel == 0 then this
      else Step(program, decode).Run(program, decode, fuel - 1)
    }
  }

  /** A fresh machine: all registers and RAM zero, empty stack, buffer and output. */
  function Initial(): (s: State)
    ensures s.Valid() && !s.halted && s.Pc() == 0
  {
    State(seq(8, _ => 0), seq(256, _ => 0), [], false, [], [])
  }

  class MiniMachineVM {
    const reg: array<byte>
    const ram: array<byte>
    var stack: seq<byte>
    var halted: bool
    var utf8Buffer: seq<byte>
    var output: string
    const program: seq<byte>
    const decode: Decoder

    ghost predicate Valid()
      reads this
    {
      reg.Length == 8 && ram.Length == 256 && reg != ram
    }

    function Snapshot(): (s: State)
      requires Valid()
      reads this, reg, ram
      ensures s.Valid()
    {
      State(reg[..], ram[..], stack, halted, utf8Buffer, output)
    }

    constructor(program: seq<byte>, decode: Decoder)
      ensures Valid() && fresh(reg) && fresh(ram)
      ensures this.program == program && this.decode == decode
      ensures Snapshot() == Initial()
    {
      reg := new byte[8](_ => 0);
      ram := new byte[256](_ => 0);
      stack := [];
      halted := false;
      utf8Buffer := [];
      output := [];
      this.program := program;
      this.decode := decode;
    }

    /** fetch: the instruction at PC, halting the machine when there is none. */
    method Fetch() returns (instr: Option<Word>)
      requires Valid()
      modifies this`halted
      ensures instr == InstructionAt(program, reg[7])
      ensures Snapshot() == if instr.None? then old(Snapshot()).(halted := true) else old(Snapshot())
    {
      var pc := reg[7];
      var idx: int := pc as int * 4;
      if idx + 4 > |program| {
        halted := true;
        return None;
      }
      return Some(Word(program[idx], program[idx + 1], program[idx + 2], program[idx + 3]));
    }

    method GetOperand(val: byte, isImm: bool) returns (r: byte)
      requires Valid()
      ensures r == Snapshot().Operand(val, isImm)
    {
      if !isImm {
        if val == 5 {
          return ram[reg[4]];
        }
        return reg[val % 8];
      }
      return val;
    }

    method SetReg(idx: RegIndex, value: int)
      requires Valid()
      modifies reg, ram
      ensures Snapshot() == old(Snapshot()).SetReg(idx, value)
    {
      if idx == 6 {
        return;
      }
      var v := value % 256;
      if idx == 5 {
        ram[reg[4]] := v;
      } else {
        reg[idx] := v;
      }
      if idx == 4 {
        reg[5] := ram[v];
      }
    }

    method Wrt(val: byte, fmt: nat)
      requires Valid()
      modifies this`output, this`utf8Buffer
      ensures Snapshot() == old(Snapshot()).Wrt(val, fmt, decode)
    {
      if fmt == 0 {
        HandleUtf8Byte(val);
      } else if fmt == 1 {
        output := output + (if val <= 9 then Decimal(val) else "?");
      } else if fmt == 2 {
        output := output + (if val <= 25 then [(65 + val) as char] else "?");
      } else if fmt == 3 {
        output := output + (if val <= 15 then Numeral(val, 16, true) else "?");
      }
    }

    method HandleUtf8Byte(b: byte)
      requires Valid()
      modifies this`output, this`utf8Buffer
      ensures Snapshot() == old(Snapshot()).HandleUtf8Byte(b, decode)
    {
      if b == 0 {
        output := [];
        utf8Buffer := [];
        return;
      }
      utf8Buffer := utf8Buffer + [b];
      var decoded := decode(utf8Buffer);
      if decoded.Some? {
        output := output + decoded.value;
        utf8Buffer := [];
      }
    }

    method Execute(instr: Word)
      requires Valid()
      modifies this, reg, ram
      ensures Snapshot() == old(Snapshot()).Execute(instr, decode)
    {
      var imm1 := Imm1(instr.opcode);
      var imm2 := Imm2(instr.opcode);
      var opclass := OpClass(instr.opcode);
      var subtype := Subtype(instr.opcode);

      if opclass == 0 {
        var a := GetOperand(instr.op1, imm1);
        var b := GetOperand(instr.op2, imm2);
        SetReg(instr.dest % 8, AluResult(subtype, a, b));
        reg[7] := (reg[7] as int + 1) % 256;
        return;
      }

      if opclass == 1 {
        var a := GetOperand(instr.op1, imm1);
        var b := GetOperand(instr.op2, imm2);
        if CondHolds(subtype, a, b) {
          SetReg(7, instr.dest);
        } else {
          reg[7] := (reg[7] as int + 1) % 256;
        }
        return;
      }

      if opclass == 2 {
        ExecuteIo(instr);
      }
    }

    /** The IO branch of execute. */
    method ExecuteIo(instr: Word)
      requires Valid() && OpClass(instr.opcode) == 2
      modifies this, reg, ram
      ensures Snapshot() == old(Snapshot()).ExecuteIo(instr, decode)
    {
      if Subtype(instr.opcode) < 5 {
        IoEffect(instr);
        reg[7] := (reg[7] as int + 1) % 256;
      } else {
        IoTransfer(instr);
      }
    }

    /** MOV SWAP PUSH POP WRT, before the PC increment they share. */
    method IoEffect(instr: Word)
      requires Valid() && Subtype(instr.opcode) < 5
      modifies this`stack, this`utf8Buffer, this`output, reg, ram
      ensures Snapshot() == old(Snapshot()).IoEffect(instr, decode)
    {
      var imm1 := Imm1(instr.opcode);
      var subtype := Subtype(instr.opcode);
      if subtype == 0 {
        var val := GetOperand(instr.op1, imm1);
        SetReg(instr.dest % 8, val);
      } else if subtype == 1 {
        var idx1 := instr.op1 % 8;
        var idx2 := instr.dest % 8;
        if idx1 != 6 && idx2 != 6 {
          reg[idx1], reg[idx2] := reg[idx2], reg[idx1];
        }
      } else if subtype == 2 {
        var val := GetOperand(instr.op1, imm1);
        stack := stack + [val];
      } else if subtype == 3 {
        if |stack| > 0 {
          var top := stack[|stack| - 1];
          stack := stack[..|stack| - 1];
          SetReg(instr.dest % 8, top);
        }
      } else {
        var val := GetOperand(instr.op1, imm1);
        Wrt(val, instr.op2 % 4);
      }
    }

    /** CALL JRE HCF, which return without the PC increment. */
    method IoTransfer(instr: Word)
      requires Valid() && Subtype(instr.opcode) >= 5
      modifies this`stack, this`halted, reg, ram
      ensures Snapshot() == old(Snapshot()).IoTransfer(instr)
    {
      var subtype := Subtype(instr.opcode);
      if subtype == 5 {
        var addr := GetOperand(instr.op1, Imm1(instr.opcode));
        stack := stack + [reg[7]];
        SetReg(7, addr);
      } else if subtype == 6 {
        var offset: int := reg[0];
        if offset >= 0x80 {
          offset := offset - 0x100;
        }
        SetReg(7, (reg[7] + offset) % 256);
      } else {
        halted := true;
      }
    }

    method Step()
      requires Valid()
      modifies this, reg, ram
      ensures Snapshot() == old(Snapshot()).Step(program, decode)
    {
      if halted {
        return;
      }
      var instr := Fetch();
      if instr.None? {
        halted := true;
        return;
      }
      Execute(instr.value);
    }

    /** run, bounded by `fuel` steps. */
    method Run(fuel: nat)
      requires Valid()
      modifies this, reg, ram
      ensures Snapshot() == old(Snapshot()).Run(program, decode, fuel)
    {
      var steps := 0;
      while !halted && steps < fuel
        invariant 0 <= steps <= fuel
        invariant old(Snapshot()).Run(program, decode, fuel) == Snapshot().Run(program, decode, fuel - steps)
        decreases fuel - steps
      {
        var instr := Fetch();
        if instr.None? {
          break;
        }
        Execute(instr.value);
        steps := steps + 1;
      }
      if halted {
        output := output + HaltedBanner;
      }
    }
  }
}
