/** The CPU object (6502cpu.h, 6502cpu.cpp and the functions of 6502isa.cpp), updating
    its registers, the packed status byte and the memory array in place. `State()` is
    the machine value it represents; every method is proved to change it exactly as the
    corresponding function of MachineModel does. */
module Cpu {
  import opened Bytes
  import opened Status
  import opened Alu
  import opened InstructionSet
  import opened MachineModel
  import opened Memory
  import opened RunLoop

  const RESET_VECTOR_LOW := 0xFFFC
  const RESET_VECTOR_HIGH := 0xFFFD
  const STACK_START := 0x1FF

  class CPU6502 {
    var A: byte
    var X: byte
    var Y: byte
    var S: byte
    const P: PSR
    var PC: word
    const memory: GPMemory
    const isa: map<byte, Instruction>
    var debug: bool

    predicate Valid() {
      memory.Valid()
    }

    ghost function State(): Machine
      requires Valid()
      reads this, P, memory, memory.cells
    {
      Machine(A, X, Y, S, Unpack(P.psr), PC, memory.cells[..], memory.device, memory.log, isa, debug)
    }

    /** The reset sequence. The stack start 0x1FF is truncated to a byte. */
    constructor (mem: GPMemory, debug: bool)
      requires mem.Valid()
      ensures Valid() && memory == mem && fresh(P)
      ensures State() == Reset(old(mem.cells[..]), old(mem.device), debug).(log := old(mem.log))
    {
      A, X, Y := 0, 0, 0;
      S := STACK_START % 0x100;
      P := new PSR();
      memory := mem;
      isa := Isa();
      this.debug := debug;
      var low := mem.Read(RESET_VECTOR_LOW);
      var high := mem.Read(RESET_VECTOR_HIGH);
      PC := Join(low, high);
      new;
      assert Unpack(0x24) == Unpack(P.psr);
    }

    method SetPC(value: word)
      requires Valid()
      modifies this`PC
      ensures State() == old(State()).(pc := value)
    {
      PC := value;
    }

    /** The raw byte replaces the register, bit 5 included. */
    method SetPSR(value: byte)
      requires Valid()
      modifies P
      ensures State() == old(State()).(p := Unpack(value))
    {
      hide Unpack;
      P.psr := value;
    }

    method UpdateFlags(value: byte)
      requires Valid()
      modifies P
      ensures State() == old(State()).(p := old(State()).p.OfValue(value))
    {
      hide Unpack;
      NegativeMeaning(value);
      P.SetBit(Zero, value == 0);
      P.SetBit(Negative, BitAnd(value, 0x80) != 0);
    }

    method PopStack() returns (value: byte)
      requires Valid()
      modifies this`S
      ensures value == Top(old(State())) && State() == Drop(old(State()))
    {
      value := memory.Read(S);
      S := AddByte(S, 1).value;
    }

    method PushStack(value: byte)
      requires Valid()
      modifies this`S, memory, memory.cells
      ensures State() == Push(old(State()), value)
    {
      S := SubByte(S, 1).value;
      memory.Write(S, value);
    }

    // -------------------------------------------------------------- arithmetic

    /** The tail ADC and SBC share: C, V, A, then N and Z. */
    method SetResult(value: byte, carry: bool, overflow: bool)
      requires Valid()
      modifies this`A, P
      ensures State() == SetAlu(old(State()), Sum(value, carry, overflow))
    {
      hide Unpack;
      P.SetBit(Carry, carry);
      P.SetBit(Overflow, overflow);
      A := value;
      UpdateFlags(A);
    }

    method ExecAdc(addr: word) returns (err: InstructionErr)
      requires Valid()
      modifies this`A, P
      ensures StepResult(State(), err) == Exec(old(State()), Adc, addr)
    {
      hide Unpack, AdcOverflow, AddResult, AddByte, Adc8;
      var operand := memory.Read(addr);
      var accumulator := A;
      var carry := P.GetBit(Carry);
      var result := AddResult(AddByte(accumulator, operand), Num(carry));
      var overflow := AdcOverflow(accumulator, operand, result.value);
      AdcFormulas(accumulator, operand, carry);
      SetResult(result.value, result.carry, overflow);
      return OK;
    }

    method ExecSbc(addr: word) returns (err: InstructionErr)
      requires Valid()
      modifies this`A, P
      ensures StepResult(State(), err) == Exec(old(State()), Sbc, addr)
    {
      hide Unpack, SbcOverflow, Sbc8;
      var m := memory.Read(addr);
      var carry := P.GetBit(Carry);
      var borrow := !carry;
      var result := (A - m - Num(borrow)) % 0x1_0000;
      var resultByte := result % 0x100;
      var overflow := SbcOverflow(A, m, resultByte);
      SbcFormulas(A, m, carry);
      SetResult(resultByte, A >= m + Num(borrow), overflow);
      return OK;
    }

    method ExecCmp(addr: word) returns (err: InstructionErr)
      requires Valid()
      modifies P
      ensures StepResult(State(), err) == Exec(old(State()), Cmp, addr)
    {
      hide Unpack, IsNegative;
      var acc := A;
      var value := memory.Read(addr);
      var negative := SubByte(acc, value).negative;
      P.SetBit(Carry, acc >= value);
      P.SetBit(Zero, acc == value);
      P.SetBit(Negative, negative);
      return OK;
    }

    /** CPX, CPY and CMP 0xD2. */
    method CompareRegister(reg: byte, value: byte)
      requires Valid()
      modifies P
      ensures State() == CompareBorrow(old(State()), reg, value)
    {
      hide Unpack, IsNegative;
      var result := SubByte(reg, value);
      P.SetBit(Carry, result.carry);
      P.SetBit(Zero, result.value >= 0);
      P.SetBit(Negative, result.negative);
    }

    method LoadA(value: byte)
      requires Valid()
      modifies this`A, P
      ensures State() == SetA(old(State()), value)
    {
      A := value;
      UpdateFlags(A);
    }

    method LoadX(value: byte)
      requires Valid()
      modifies this`X, P
      ensures State() == SetX(old(State()), value)
    {
      X := value;
      UpdateFlags(X);
    }

    method LoadY(value: byte)
      requires Valid()
      modifies this`Y, P
      ensures State() == SetY(old(State()), value)
    {
      Y := value;
      UpdateFlags(Y);
    }

    // -------------------------------------------------------------- shifts and rotates

    method ExecAslMem(addr: word) returns (err: InstructionErr)
      requires Valid()
      modifies P, memory, memory.cells
      ensures StepResult(State(), err) == Exec(old(State()), Asl, addr)
    {
      hide Unpack, BitAnd;
      var value := memory.Read(addr);
      ShiftFormulas(value);
      P.SetBit(Carry, BitAnd(value, 0x80) != 0);
      value := ShiftLeft(value);
      memory.Write(addr, value);
      UpdateFlags(value);
      return OK;
    }

    method ExecAslA(addr: word) returns (err: InstructionErr)
      requires Valid()
      modifies this`A, P
      ensures StepResult(State(), err) == Exec(old(State()), AslA, addr)
    {
      hide Unpack, BitAnd;
      var value := A;
      ShiftFormulas(value);
      P.SetBit(Carry, BitAnd(value, 0x80) != 0);
      A := ShiftLeft(value);
      UpdateFlags(A);
      return OK;
    }

    method ExecRolMem(addr: word) returns (err: InstructionErr)
      requires Valid()
      modifies P, memory, memory.cells
      ensures StepResult(State(), err) == Exec(old(State()), Rol, addr)
    {
      hide Unpack, BitAnd, BitOr;
      var value := memory.Read(addr);
      var carryOut := BitAnd(value, 0x80) != 0;
      var carryIn := P.GetBit(Carry);
      RolFormulas(value, carryIn);
      value := BitOr(ShiftLeft(value), Num(carryIn));
      P.SetBit(Carry, carryOut);
      UpdateFlags(value);
      memory.Write(addr, value);
      return OK;
    }

    method ExecRolA(addr: word) returns (err: InstructionErr)
      requires Valid()
      modifies this`A, P
      ensures StepResult(State(), err) == Exec(old(State()), RolA, addr)
    {
      hide Unpack, BitAnd, BitOr;
      var value := A;
      var carryOut := BitAnd(value, 0x80) != 0;
      var carryIn := P.GetBit(Carry);
      RolFormulas(value, carryIn);
      value := BitOr(ShiftLeft(value), Num(carryIn));
      P.SetBit(Carry, carryOut);
      UpdateFlags(value);
      A := value;
      return OK;
    }

    method ExecRorMem(addr: word) returns (err: InstructionErr)
      requires Valid()
      modifies P, memory, memory.cells
      ensures StepResult(State(), err) == Exec(old(State()), Ror, addr)
    {
      hide Unpack, BitAnd, BitOr;
      var value := memory.Read(addr);
      var carryOut := BitAnd(value, 0x01) != 0;
      var carryIn := P.GetBit(Carry);
      RorFormulas(value, carryIn);
      value := BitOr(ShiftRight(value), Num(carryIn) * 0x80);
      P.SetBit(Carry, carryOut);
      UpdateFlags(value);
      memory.Write(addr, value);
      return OK;
    }

    method ExecRorA(addr: word) returns (err: InstructionErr)
      requires Valid()
      modifies this`A, P
      ensures StepResult(State(), err) == Exec(old(State()), RorA, addr)
    {
      hide Unpack, BitAnd, BitOr;
      var value := A;
      var carryOut := BitAnd(value, 0x01) != 0;
      var carryIn := P.GetBit(Carry);
      RorFormulas(value, carryIn);
      value := BitOr(ShiftRight(value), Num(carryIn) * 0x80);
      P.SetBit(Carry, carryOut);
      UpdateFlags(value);
      A := value;
      return OK;
    }

    method ExecLsrMem(addr: word) returns (err: InstructionErr)
      requires Valid()
      modifies P, memory, memory.cells
      ensures StepResult(State(), err) == Exec(old(State()), Lsr, addr)
    {
      hide Unpack, BitAnd;
      var value := memory.Read(addr);
      ShiftFormulas(value);
      var carryOut := BitAnd(value, 0x01);
      memory.Write(addr, ShiftRight(value));
      P.SetBit(Carry, carryOut == 1);
      P.SetBit(Negative, false);
      return OK;
    }

    method ExecLsrA(addr: word) returns (err: InstructionErr)
      requires Valid()
      modifies this`A, P
      ensures StepResult(State(), err) == Exec(old(State()), LsrA, addr)
    {
      hide Unpack, BitAnd;
      var value := A;
      ShiftFormulas(value);
      var carryOut := BitAnd(value, 0x01);
      A := ShiftRight(value);
      P.SetBit(Carry, carryOut == 1);
      P.SetBit(Negative, false);
      return OK;
    }

    // -------------------------------------------------------------- memory bits

    method ExecTsb(addr: word) returns (err: InstructionErr)
      requires Valid()
      modifies P, memory, memory.cells
      ensures StepResult(State(), err) == Exec(old(State()), Tsb, addr)
    {
      hide Unpack, BitAnd, BitOr;
      var memByte := memory.Read(addr);
      P.SetBit(Zero, BitAnd(memByte, A) == 0);
      memory.Write(addr, BitOr(memByte, A));
      return OK;
    }

    /** TRB, and 0x1C, which the table also names TSB but which clears bits. */
    method ExecTrb(addr: word) returns (err: InstructionErr)
      requires Valid()
      modifies P, memory, memory.cells
      ensures StepResult(State(), err) == Exec(old(State()), Trb, addr)
    {
      hide Unpack, BitAnd;
      var memByte := memory.Read(addr);
      P.SetBit(Zero, BitAnd(memByte, A) == 0);
      memory.Write(addr, BitAnd(memByte, BitNot(A)));
      return OK;
    }

    method ExecBitLoad(addr: word) returns (err: InstructionErr)
      requires Valid()
      modifies P
      ensures StepResult(State(), err) == Exec(old(State()), BitLoad, addr)
    {
      hide Unpack, IsBitSet, IsNegative, BitAnd;
      var memByte := memory.Read(addr);
      IsBitSetMeaning(memByte, 6);
      NegativeMeaning(memByte);
      P.SetBit(Zero, memByte == 0);
      P.SetBit(Overflow, IsBitSet(memByte, 6));
      P.SetBit(Negative, IsNegative(memByte));
      return OK;
    }

    method ExecRmb(addr: word, bit: bitnum) returns (err: InstructionErr)
      requires Valid()
      modifies memory, memory.cells
      ensures StepResult(State(), err) == Exec(old(State()), Rmb(bit), addr)
    {
      var value := memory.Read(addr);
      memory.Write(addr, BitAnd(value, BitNot(Mask(bit))));
      return OK;
    }

    method ExecSmb(addr: word, bit: bitnum) returns (err: InstructionErr)
      requires Valid()
      modifies memory, memory.cells
      ensures StepResult(State(), err) == Exec(old(State()), Smb(bit), addr)
    {
      var value := memory.Read(addr);
      memory.Write(addr, BitOr(value, Mask(bit)));
      return OK;
    }

    // -------------------------------------------------------------- counting

    /** INC and DEC set N and Z bit by bit, from the value already stored. */
    method SetZN(value: byte)
      requires Valid()
      modifies P
      ensures State() == old(State()).(p := old(State()).p.OfValue(value))
    {
      hide Unpack, IsNegative;
      NegativeMeaning(value);
      P.SetBit(Zero, value == 0);
      P.SetBit(Negative, IsNegative(value));
    }

    method ExecInc(addr: word) returns (err: InstructionErr)
      requires Valid()
      modifies P, memory, memory.cells
      ensures StepResult(State(), err) == Exec(old(State()), Inc, addr)
    {
      hide AddByte;
      var value := memory.Read(addr);
      value := AddByte(value, 1).value;
      memory.Write(addr, value);
      SetZN(value);
      return OK;
    }

    method ExecDec(addr: word) returns (err: InstructionErr)
      requires Valid()
      modifies P, memory, memory.cells
      ensures StepResult(State(), err) == Exec(old(State()), Dec, addr)
    {
      hide SubByte;
      var value := memory.Read(addr);
      value := SubByte(value, 1).value;
      memory.Write(addr, value);
      SetZN(value);
      return OK;
    }

    method ExecIncA(addr: word) returns (err: InstructionErr)
      requires Valid()
      modifies this`A, P
      ensures StepResult(State(), err) == Exec(old(State()), IncA, addr)
    {
      hide AddByte;
      A := AddByte(A, 1).value;
      SetZN(A);
      return OK;
    }

    method ExecDecA(addr: word) returns (err: InstructionErr)
      requires Valid()
      modifies this`A, P
      ensures StepResult(State(), err) == Exec(old(State()), DecA, addr)
    {
      hide SubByte;
      A := SubByte(A, 1).value;
      SetZN(A);
      return OK;
    }

    method ExecInx(addr: word) returns (err: InstructionErr)
      requires Valid()
      modifies this`X, P
      ensures StepResult(State(), err) == Exec(old(State()), Inx, addr)
    {
      hide Unpack, AddByte;
      var result := AddByte(X, 1);
      if result.carry {
        P.SetBit(Carry, true);
      }
      X := result.value;
      UpdateFlags(X);
      return OK;
    }

    method ExecIny(addr: word) returns (err: InstructionErr)
      requires Valid()
      modifies this`Y, P
      ensures StepResult(State(), err) == Exec(old(State()), Iny, addr)
    {
      hide Unpack, AddByte;
      var result := AddByte(Y, 1);
      if result.carry {
        P.SetBit(Carry, true);
      }
      Y := result.value;
      UpdateFlags(Y);
      return OK;
    }

    method ExecDey(addr: word) returns (err: InstructionErr)
      requires Valid()
      modifies this`Y, P
      ensures StepResult(State(), err) == Exec(old(State()), Dey, addr)
    {
      hide Unpack, SubByte;
      var result := SubByte(Y, 1);
      if result.carry {
        P.SetBit(Carry, true);
      }
      Y := result.value;
      UpdateFlags(Y);
      return OK;
    }

    method ExecDex(addr: word) returns (err: InstructionErr)
      requires Valid()
      modifies this`X, P
      ensures StepResult(State(), err) == Exec(old(State()), Dex, addr)
    {
      hide SubByte;
      X := SubByte(X, 1).value;
      SetZN(X);
      return OK;
    }

    // -------------------------------------------------------------- jumps and the stack

    method Jump(addr: word) returns (err: InstructionErr)
      requires Valid()
      modifies this`PC
      ensures StepResult(State(), err) == Goto(old(State()), addr)
    {
      PC := addr;
      return OKPCModified;
    }

    method JumpIf(taken: bool, addr: word) returns (err: InstructionErr)
      requires Valid()
      modifies this`PC
      ensures StepResult(State(), err) == GotoIf(old(State()), taken, addr)
    {
      if taken {
        PC := addr;
        return OKPCModified;
      }
      return OK;
    }

    method ExecJsr(addr: word) returns (err: InstructionErr)
      requires Valid()
      modifies this`S, this`PC, memory, memory.cells
      ensures StepResult(State(), err) == Call(old(State()), addr)
    {
      hide Low, High, Unpack, Down;
      PushStack(High(PC));
      PushStack(Low(PC));
      PC := addr;
      return OKPCModified;
    }

    method ExecRts() returns (err: InstructionErr)
      requires Valid()
      modifies this`S, this`PC
      ensures StepResult(State(), err) == Return(old(State()))
    {
      hide State, AddAddress, Up;
      var low := PopStack();
      var high := PopStack();
      SetPC(AddAddress(Join(low, high), 3).value);
      return OKPCModified;
    }

    method ExecBrk() returns (err: InstructionErr)
      requires Valid()
      modifies this`S, this`PC, P, memory, memory.cells
      ensures StepResult(State(), err) == Interrupt(old(State()))
    {
      hide Unpack, Pack, Low, High, Down;
      PushStack(High(PC));
      PushStack(Low(PC));
      var status := P.Get();
      PushStack(status);
      PC := Join(memory.Read(0xFFFE), memory.Read(0xFFFF));
      P.SetBit(BreakCommand, true);
      return OKPCModified;
    }

    method ExecRti() returns (err: InstructionErr)
      requires Valid()
      modifies this`S, this`PC, P
      ensures StepResult(State(), err) == ReturnFromInterrupt(old(State()))
    {
      hide State, Unpack, AddAddress, Up;
      var status := PopStack();
      SetPSR(status);
      var low := PopStack();
      var high := PopStack();
      SetPC(AddAddress(Join(low, high), 1).value);
      return OKPCModified;
    }

    /** PHP sets the break flag in a copy of the register. */
    method ExecPhp(addr: word) returns (err: InstructionErr)
      requires Valid()
      modifies this`S, memory, memory.cells
      ensures StepResult(State(), err) == Exec(old(State()), Php, addr)
    {
      hide Unpack, Pack;
      var copy := new PSR.OfByte(P.psr);
      copy.SetBit(BreakCommand, true);
      var status := copy.Get();
      PushStack(status);
      return OK;
    }

    method ExecPlp(addr: word) returns (err: InstructionErr)
      requires Valid()
      modifies this`S, P
      ensures StepResult(State(), err) == Exec(old(State()), Plp, addr)
    {
      hide State, Unpack;
      var value := PopStack();
      SetPSR(value);
      return OK;
    }

    // -------------------------------------------------------------- the table entries

    /** Table entries for arithmetic, logic and counting in the registers. */
    method ExecuteAlu(op: Operation, addr: word) returns (err: InstructionErr)
      requires Valid() && op.Group() == Arithmetic
      modifies this, P, memory, memory.cells
      ensures StepResult(State(), err) == Exec(old(State()), op, addr)
    {
      hide Unpack, Pack, BitAnd, BitOr, BitXor, IsNegative, IsBitSet;
      err := OK;
      match op {
        case Adc => err := ExecAdc(addr);
        case Sbc => err := ExecSbc(addr);
        case Cmp => err := ExecCmp(addr);
        case CmpBorrow => CompareRegister(A, memory.Read(addr));
        case Cpx => CompareRegister(X, memory.Read(addr));
        case CpxLow => CompareRegister(X, Low(addr));
        case Cpy => CompareRegister(Y, memory.Read(addr));
        case CpyLow => CompareRegister(Y, Low(addr));
        case And => LoadA(BitAnd(A, memory.Read(addr)));
        case Ora => LoadA(BitOr(A, memory.Read(addr)));
        case Eor => LoadA(BitXor(A, memory.Read(addr)));
        case BitLoad => err := ExecBitLoad(addr);
        case BitTest => UpdateFlags(BitAnd(A, memory.Read(addr)));
        case Inx => err := ExecInx(addr);
        case Iny => err := ExecIny(addr);
        case Dex => err := ExecDex(addr);
        case Dey => err := ExecDey(addr);
      }
    }

    /** Table entries for shifts, rotates, and counting in memory or the accumulator. */
    method ExecuteShift(op: Operation, addr: word) returns (err: InstructionErr)
      requires Valid() && op.Group() == Shifting
      modifies this, P, memory, memory.cells
      ensures StepResult(State(), err) == Exec(old(State()), op, addr)
    {
      hide Unpack, Pack, BitAnd, BitOr, BitXor, IsNegative, IsBitSet;
      err := OK;
      match op {
        case Asl => err := ExecAslMem(addr);
        case AslA => err := ExecAslA(addr);
        case Lsr => err := ExecLsrMem(addr);
        case LsrA => err := ExecLsrA(addr);
        case Rol => err := ExecRolMem(addr);
        case RolA => err := ExecRolA(addr);
        case Ror => err := ExecRorMem(addr);
        case RorA => err := ExecRorA(addr);
        case Inc => err := ExecInc(addr);
        case IncA => err := ExecIncA(addr);
        case Dec => err := ExecDec(addr);
        case DecA => err := ExecDecA(addr);
      }
    }

    /** Table entries for loads, stores and bit changes in memory. */
    method ExecuteData(op: Operation, addr: word) returns (err: InstructionErr)
      requires Valid() && op.Group() == Data
      modifies this, P, memory, memory.cells
      ensures StepResult(State(), err) == Exec(old(State()), op, addr)
    {
      hide Unpack, Pack, BitAnd, BitOr, BitXor, IsNegative, IsBitSet;
      err := OK;
      match op {
        case Lda => LoadA(memory.Read(addr));
        case LdaPlain => A := memory.Read(addr);
        case Ldx => LoadX(memory.Read(addr));
        case Ldy => LoadY(memory.Read(addr));
        case Sta => memory.Write(addr, A);
        case Stx => memory.Write(addr, X);
        case Sty => memory.Write(addr, Y);
        case Stz => memory.Write(addr, 0);
        case Tsb => err := ExecTsb(addr);
        case Trb => err := ExecTrb(addr);
        case Rmb(k) => err := ExecRmb(addr, k);
        case Smb(k) => err := ExecSmb(addr, k);
      }
    }

    /** Table entries for calls, returns, interrupts, pushes and pulls. */
    method ExecuteStack(op: Operation, addr: word) returns (err: InstructionErr)
      requires Valid() && op.Group() == Stacking
      modifies this, P, memory, memory.cells
      ensures StepResult(State(), err) == Exec(old(State()), op, addr)
    {
      hide Unpack, Pack, BitAnd, BitOr, BitXor, IsNegative, IsBitSet;
      err := OK;
      match op {
        case Jsr => err := ExecJsr(addr);
        case Rts => err := ExecRts();
        case Brk => err := ExecBrk();
        case Rti => err := ExecRti();
        case Pha => PushStack(A);
        case Phx => PushStack(X);
        case Phy => PushStack(Y);
        case Php => err := ExecPhp(addr);
        case Pla => A := PopStack();
        case Plx => X := PopStack();
        case Ply => Y := PopStack();
        case Plp => err := ExecPlp(addr);
      }
    }

    /** Table entries for branches, jumps, flags and transfers. */
    method ExecuteControl(op: Operation, addr: word) returns (err: InstructionErr)
      requires Valid() && op.Group() == Control
      modifies this, P, memory, memory.cells
      ensures StepResult(State(), err) == Exec(old(State()), op, addr)
    {
      hide Unpack, Pack, BitAnd, BitOr, BitXor, IsNegative, IsBitSet;
      err := OK;
      match op {
        case Bbr(k) =>
          IsBitSetMeaning(memory.Read(addr), k);
          err := JumpIf(!IsBitSet(memory.Read(addr), k), addr);
        case Bbs(k) =>
          IsBitSetMeaning(memory.Read(addr), 0);
          err := JumpIf(IsBitSet(memory.Read(addr), 0), addr);
        case Branch(flag, when) => err := JumpIf(P.GetBit(flag) == when, addr);
        case Bra => err := Jump(addr);
        case Jmp => err := Jump(addr);
        case SetFlag(flag, value) => P.SetBit(flag, value);
        case Tax => X := A;
        case Tay => Y := A;
        case Txa => A := X;
        case Tya => A := Y;
        case Tsx => X := S;
        case Txs => S := X;
        case Nop =>
        case Dbg => err := if debug then GoToDebugger else OK;
        case Stp => err := Stop;
      }
    }

    /** Runs the code of one table entry. */
    method ExecuteOp(op: Operation, addr: word) returns (err: InstructionErr)
      requires Valid()
      modifies this, P, memory, memory.cells
      ensures StepResult(State(), err) == Exec(old(State()), op, addr)
    {
      hide Unpack, Exec;
      match op.Group() {
        case Arithmetic => err := ExecuteAlu(op, addr);
        case Shifting => err := ExecuteShift(op, addr);
        case Data => err := ExecuteData(op, addr);
        case Stacking => err := ExecuteStack(op, addr);
        case Control => err := ExecuteControl(op, addr);
      }
    }

    /** Two bytes of memory, low byte first, read at an address and the next. */
    function ReadPair(addr: word): (value: word)
      requires Valid()
      reads this, P, memory, memory.cells
      ensures value == MachineModel.Word(State(), addr)
    {
      Join(memory.Read(addr), memory.Read(AddAddress(addr, 1).value))
    }

    /** The operand address, through the `address` and `byte` operators. `Beyond` is
        returned instead of reading one past the end of memory. */
    method ResolveOperand(mode: AddressingMode) returns (operand: Operand)
      requires Valid()
      ensures operand == Resolve(State(), mode)
    {
      hide AddAddress, AddByte, Word, Pair, Unpack, Join, Signed, ReadPair;
      var next := AddAddress(PC, 1).value;
      match mode {
        case Absolute =>
          return At(ReadPair(next));
        case AbsoluteIndexedIndirect =>
          return At(ReadPair(AddAddress(ReadPair(next), X).value));
        case AbsoluteIndexedX =>
          return At(AddAddress(ReadPair(next), X).value);
        case AbsoluteIndexedY =>
          return At(AddAddress(ReadPair(next), Y).value);
        case AbsoluteIndirect =>
          operand := ResolveIndirect(ReadPair(next));
        case Accumulator =>
          return At(A);
        case Immediate =>
          return At(next);
        case Implied =>
          return At(0);
        case PCRelative =>
          operand := ResolveRelative(memory.Read(next));
        case Stack =>
          return At(S);
        case ZeroPage =>
          return At(memory.Read(next));
        case ZeroPageIndexedIndirect =>
          return At(ReadPair(AddByte(memory.Read(next), X).value));
        case ZeroPageIndexedX =>
          return At(AddByte(memory.Read(next), X).value);
        case ZeroPageIndexedY =>
          return At(AddByte(memory.Read(next), Y).value);
        case ZeroPageIndirect =>
          return At(ReadPair(memory.Read(next)));
        case ZeroPageIndirectIndexedY =>
          return At(AddAddress(ReadPair(memory.Read(next)), Y).value);
      }
    }

    /** The pointer is a `size_t` here, so the second read is not wrapped to 16 bits. */
    method ResolveIndirect(pointer: word) returns (operand: Operand)
      requires Valid()
      ensures operand == if pointer == 0xFFFF then Beyond else At(MachineModel.Word(State(), pointer))
    {
      if pointer + 1 >= memory.Size() {
        return Beyond;
      }
      return At(Join(memory.Read(pointer), memory.Read(pointer + 1)));
    }

    method ResolveRelative(offset: byte) returns (operand: Operand)
      ensures operand == At((PC + 2 + Signed(offset)) % 0x1_0000)
    {
      return At(AddAddress(AddAddress(PC, 2).value, SignExtend(offset)).value);
    }

    /** One step of the CPU. */
    method Step() returns (err: InstructionErr)
      requires Valid()
      modifies this, P, memory, memory.cells
      ensures StepResult(State(), err) == MachineModel.Step(old(State()))
    {
      hide Exec, Resolve, Unpack;
      var opcode := memory.Read(PC);
      if opcode !in isa {
        return UnknownInstruction;
      }
      var instruction := isa[opcode];
      var operand := ResolveOperand(instruction.mode);
      if operand.Beyond? {
        return OutOfRange;
      }
      err := ExecuteOp(instruction.op, operand.addr);
      if err == OKPCModified {
        return;
      }
      PC := AddAddress(PC, BytesForAddressingMode(instruction.mode)).value;
    }

    /** The run loop, for at most `fuel` steps. */
    method Execute(fuel: nat) returns (halt: Halt)
      requires Valid()
      modifies this, P, memory, memory.cells
      ensures RunResult(State(), halt) == RunLoop.Execute(old(State()), fuel)
    {
      hide Unpack, MachineModel.Step;
      var left := fuel;
      while PC < memory.Size() && left > 0
        decreases left
        invariant RunLoop.Execute(State(), left) == RunLoop.Execute(old(State()), fuel)
      {
        var err := Step();
        if err == Stop {
          return Stopped;
        }
        if err == OutOfRange {
          return Faulted;
        }
        left := left - 1;
      }
      return Unfinished;
    }
  }
}
