/** One step of the opcodes the verified programs use, straight from the table. */
module Opcodes {
  import opened Bytes
  import opened Status
  import opened Alu
  import opened InstructionSet
  import opened MachineModel

  /** The machine runs the simulator's table and is about to fetch `opcode`. */
  predicate Fetches(m: Machine, opcode: byte) {
    m.isa == Isa() && m.mem[m.pc] == opcode
  }

  /** A step that ends by moving on by `n` bytes. */
  function Onward(m: Machine, n: nat): StepResult {
    StepResult(m.(pc := (m.pc + n) % 0x1_0000), OK)
  }

  function IndexedX(m: Machine): word {
    (Operand16(m) + m.x) % 0x1_0000
  }

  function BranchTarget(m: Machine): word {
    (m.pc + 2 + Signed(Operand8(m))) % 0x1_0000
  }

  /** A step runs the table's entry for the opcode at the address its mode resolves to. */
  lemma StepRuns(m: Machine, opcode: byte, instruction: Instruction, addr: word)
    requires Fetches(m, opcode) && Decode(opcode) == Some(instruction)
    requires Resolve(m, instruction.mode) == At(addr)
    ensures Step(m) == Advance(Exec(m, instruction.op, addr), instruction.mode)
  {
    hide Decode, Isa, Exec, Resolve;
  }

  lemma LdxImmediate(m: Machine)
    requires Fetches(m, 0xA2)
    ensures Step(m) == Onward(SetX(m, Operand8(m)), 2)
  {
    hide Decode, Isa, Step, SetX, Calculate, Shift, UseStack, Direct;
    LoadXEntries();
    StepRuns(m, 0xA2, Instruction(Ldx, Immediate), (m.pc + 1) % 0x1_0000);
  }

  lemma LdaIndexed(m: Machine)
    requires Fetches(m, 0xBD)
    ensures Step(m) == Onward(SetA(m, m.mem[IndexedX(m)]), 3)
  {
    hide Decode, Isa, Step, SetA, Calculate, Shift, UseStack, Direct;
    AluGrid(5, 7);
    StepRuns(m, 0xBD, Instruction(Lda, AbsoluteIndexedX), IndexedX(m));
  }

  lemma AdcIndexed(m: Machine)
    requires Fetches(m, 0x7D)
    ensures Step(m) == Onward(SetAlu(m, Adc8(m.a, m.mem[IndexedX(m)], m.p.c)), 3)
  {
    hide Decode, Isa, Step, SetAlu, Adc8, Shift, Move, UseStack, Direct;
    AluGrid(3, 7);
    StepRuns(m, 0x7D, Instruction(Adc, AbsoluteIndexedX), IndexedX(m));
  }

  lemma StaIndexed(m: Machine)
    requires Fetches(m, 0x9D)
    ensures Step(m) == Onward(Write(m, IndexedX(m), m.a), 3)
  {
    hide Decode, Isa, Step, Write, Calculate, Shift, UseStack, Direct;
    AluGrid(4, 7);
    StepRuns(m, 0x9D, Instruction(Sta, AbsoluteIndexedX), IndexedX(m));
  }

  lemma StaAbsolute(m: Machine)
    requires Fetches(m, 0x8D)
    ensures Step(m) == Onward(Write(m, Operand16(m), m.a), 3)
  {
    hide Decode, Isa, Step, Write, Calculate, Shift, UseStack, Direct;
    AluGrid(4, 3);
    StepRuns(m, 0x8D, Instruction(Sta, Absolute), Operand16(m));
  }

  lemma InxStep(m: Machine)
    requires Fetches(m, 0xE8)
    ensures Step(m) == Onward(SetX(WithCarry(m, m.p.c || m.x == 0xFF), (m.x + 1) % 0x100), 1)
  {
    hide Decode, Isa, Step, SetX, WithCarry, Flags.OfValue, Shift, Move, UseStack, Direct;
    CountEntries();
    StepRuns(m, 0xE8, Instruction(Inx, Implied), 0);
  }

  lemma DeyStep(m: Machine)
    requires Fetches(m, 0x88)
    ensures Step(m) == Onward(SetY(WithCarry(m, m.p.c || m.y == 0), (m.y - 1) % 0x100), 1)
  {
    hide Decode, Isa, Step, SetY, WithCarry, Shift, Move, UseStack, Direct;
    CountEntries();
    StepRuns(m, 0x88, Instruction(Dey, Implied), 0);
  }

  lemma BeqStep(m: Machine)
    requires Fetches(m, 0xF0)
    ensures Step(m) == if m.p.z then Goto(m, BranchTarget(m)) else Onward(m, 2)
  {
    hide Decode, Isa, Step, Signed, Calculate, Shift, Move, UseStack;
    BranchColumn(7);
    StepRuns(m, 0xF0, Instruction(Branch(Zero, true), PCRelative), BranchTarget(m));
  }

  lemma BneStep(m: Machine)
    requires Fetches(m, 0xD0)
    ensures Step(m) == if !m.p.z then Goto(m, BranchTarget(m)) else Onward(m, 2)
  {
    hide Decode, Isa, Step, Signed, Calculate, Shift, Move, UseStack;
    BranchColumn(6);
    StepRuns(m, 0xD0, Instruction(Branch(Zero, false), PCRelative), BranchTarget(m));
  }

  lemma JmpStep(m: Machine)
    requires Fetches(m, 0x4C)
    ensures Step(m) == Goto(m, Operand16(m))
  {
    hide Decode, Isa, Step, Word, Calculate, Shift, Move, UseStack;
    JumpEntries();
    StepRuns(m, 0x4C, Instruction(Jmp, Absolute), Operand16(m));
  }

  lemma StpStep(m: Machine)
    requires Fetches(m, 0xDB)
    ensures Step(m) == StepResult(m.(pc := (m.pc + 1) % 0x1_0000), Stop)
  {
    hide Decode, Isa, Step, Calculate, Shift, Move, UseStack;
    JumpEntries();
    StepRuns(m, 0xDB, Instruction(Stp, Implied), 0);
  }

  // ---------------------------------------------------------------- from the bytes in memory

  /** The byte `i` after the opcode. */
  function Code(m: Machine, i: nat): byte {
    m.mem[(m.pc + i) % 0x1_0000]
  }

  /** The two bytes after the opcode, low byte first. */
  function CodeAddress(m: Machine): word {
    var low: int, high: int := Code(m, 1), Code(m, 2);
    low + 0x100 * high
  }

  lemma CodeIsOperand(m: Machine)
    ensures Operand8(m) == Code(m, 1) && Operand16(m) == CodeAddress(m)
  {
  }

  /** JSR goes to the address after its opcode, having stored its own address below S,
      high byte first. */
  lemma JsrEnters(m: Machine)
    requires Fetches(m, 0x20)
    ensures Ready(m) && Fetched(m).op == Jsr
    ensures var n := Next(m);
            && n == m.(pc := CodeAddress(m), s := (m.s - 2) % 0x100, mem := n.mem, log := n.log)
            && n.mem == m.mem[(m.s - 1) % 0x100 := m.pc / 0x100][(m.s - 2) % 0x100 := m.pc % 0x100]
  {
    hide Decode, Isa, Push, Operand16, CodeAddress, Calculate, Shift, Move, Direct;
    CallEntries();
    CodeIsOperand(m);
    StepRuns(m, 0x20, Instruction(Jsr, Absolute), CodeAddress(m));
    PushTwice(m, High(m.pc), Low(m.pc));
  }

  lemma PushOnce(m: Machine, a: byte)
    ensures var n := Push(m, a);
            && n == m.(s := (m.s - 1) % 0x100, mem := n.mem, log := n.log)
            && n.mem == m.mem[(m.s - 1) % 0x100 := a]
  {
  }

  lemma PushTwice(m: Machine, a: byte, b: byte)
    ensures var n := Push(Push(m, a), b);
            && n == m.(s := (m.s - 2) % 0x100, mem := n.mem, log := n.log)
            && n.mem == m.mem[(m.s - 1) % 0x100 := a][(m.s - 2) % 0x100 := b]
  {
    hide Push;
    PushOnce(m, a);
    PushOnce(Push(m, a), b);
  }

  /** RTS goes three bytes past the address S points at and drops it. */
  lemma RtsLeaves(m: Machine)
    requires Fetches(m, 0x60)
    ensures Ready(m) && Fetched(m).op == Rts
    ensures var low: int, high: int := m.mem[m.s], m.mem[(m.s + 1) % 0x100];
            Next(m) == m.(pc := (low + 0x100 * high + 3) % 0x1_0000, s := (m.s + 2) % 0x100)
  {
    hide Decode, Isa, Up, Pair, Calculate, Shift, Move, Direct;
    CallEntries();
    StepRuns(m, 0x60, Instruction(Rts, Stack), m.s);
    UpTwice(m);
  }

  lemma UpTwice(m: Machine)
    ensures Up(m.s) == (m.s + 1) % 0x100 && Up(Up(m.s)) == (m.s + 2) % 0x100 && Up(Up(Up(m.s))) == (m.s + 3) % 0x100
    ensures Pair(m.mem, m.s, Up(m.s)) == m.mem[m.s] as int + 0x100 * m.mem[Up(m.s)] as int
    ensures Pair(m.mem, Up(m.s), Up(Up(m.s))) == m.mem[Up(m.s)] as int + 0x100 * m.mem[Up(Up(m.s))] as int
  {
  }

  /** BRK goes to the address at 0xFFFE, having stored its own address and the status
      byte below S, and sets the break flag. */
  lemma BrkEnters(m: Machine)
    requires Fetches(m, 0x00)
    ensures Ready(m) && Fetched(m).op == Brk
    ensures var n := Next(m);
            var low: int, high: int := m.mem[0xFFFE], m.mem[0xFFFF];
            && n == m.(pc := low + 0x100 * high, s := (m.s - 3) % 0x100, p := m.p.(b := true),
                       mem := n.mem, log := n.log)
            && n.mem == m.mem[(m.s - 1) % 0x100 := m.pc / 0x100][(m.s - 2) % 0x100 := m.pc % 0x100]
                             [(m.s - 3) % 0x100 := Pack(m.p)]
  {
    hide Decode, Isa, Push, Pack, Pair, Calculate, Shift, Move, Direct;
    CallEntries();
    StepRuns(m, 0x00, Instruction(Brk, Stack), m.s);
    PushTwice(m, High(m.pc), Low(m.pc));
    var two := Push(Push(m, High(m.pc)), Low(m.pc));
    PushOnce(two, Pack(m.p));
    VectorKept(m.mem, Push(two, Pack(m.p)).mem);
  }

  lemma VectorKept(mem: Memory, after: Memory)
    requires after[0xFFFE] == mem[0xFFFE] && after[0xFFFF] == mem[0xFFFF]
    ensures Pair(after, 0xFFFE, 0xFFFF) == mem[0xFFFE] as int + 0x100 * mem[0xFFFF] as int
  {
  }

  /** RTI takes the status byte S points at and goes one byte past the address above it. */
  lemma RtiLeaves(m: Machine)
    requires Fetches(m, 0x40)
    ensures Ready(m) && Fetched(m).op == Rti
    ensures var low: int, high: int := m.mem[(m.s + 1) % 0x100], m.mem[(m.s + 2) % 0x100];
            Next(m) == m.(pc := (low + 0x100 * high + 1) % 0x1_0000, s := (m.s + 3) % 0x100, p := Unpack(m.mem[m.s]))
  {
    hide Decode, Isa, Up, Pair, Unpack, Calculate, Shift, Move, Direct;
    CallEntries();
    StepRuns(m, 0x40, Instruction(Rti, Stack), m.s);
    UpTwice(m);
  }

  /** Where a branch that is taken goes: the signed byte after the opcode, from the next
      instruction. */
  function Destination(m: Machine): word {
    var offset: int := Code(m, 1);
    (m.pc + 2 + if offset < 0x80 then offset else offset - 0x100) % 0x1_0000
  }

  lemma DestinationResolved(m: Machine)
    ensures Resolve(m, PCRelative) == At(Destination(m))
  {
  }

  /** Whether a branch opcode is taken: N, V, C or Z clear or set, or always. */
  predicate Taken(p: Flags, opcode: byte) {
    match opcode
    case 0x10 => !p.n
    case 0x30 => p.n
    case 0x50 => !p.v
    case 0x70 => p.v
    case 0x90 => !p.c
    case 0xB0 => p.c
    case 0xD0 => !p.z
    case 0xF0 => p.z
    case _ => true
  }

  lemma BranchRow(row: byte, p: Flags)
    requires row < 8
    ensures var i := [Negative, Overflow, Carry, Zero][row / 2]; (p.Get(i) == (row % 2 == 1)) == Taken(p, 32 * row + 16)
  {
  }

  /** A branch changes the program counter only, and goes to its target exactly when it
      is taken. */
  lemma BranchStep(m: Machine, row: byte)
    requires row < 8 && Fetches(m, 32 * row + 16)
    ensures Next(m) == m.(pc := if Taken(m.p, 32 * row + 16) then Destination(m) else (m.pc + 2) % 0x1_0000)
  {
    hide Decode, Isa, Resolve, Destination, Taken, Flags.Get, Calculate, Shift, Move, UseStack;
    BranchColumn(row);
    BranchRow(row, m.p);
    DestinationResolved(m);
    var flag := [Negative, Overflow, Carry, Zero][row / 2];
    StepRuns(m, 32 * row + 16, Instruction(Branch(flag, row % 2 == 1), PCRelative), Destination(m));
  }

  lemma BraStep(m: Machine)
    requires Fetches(m, 0x80)
    ensures Next(m) == m.(pc := Destination(m))
  {
    hide Decode, Isa, Resolve, Destination, Calculate, Shift, Move, UseStack;
    JumpEntries();
    DestinationResolved(m);
    StepRuns(m, 0x80, Instruction(Bra, PCRelative), Destination(m));
  }

  /** BBR and BBS test the byte at the branch target: BBR the bit the opcode names, BBS
      always bit 0. */
  lemma BitBranchStep(m: Machine, row: byte)
    requires row < 16 && Fetches(m, 16 * row + 15)
    ensures var v := m.mem[Destination(m)];
            var taken := if row < 8 then !Bit(v, row) else Bit(v, 0);
            Next(m) == m.(pc := if taken then Destination(m) else (m.pc + 2) % 0x1_0000)
  {
    hide Decode, Isa, Resolve, Destination, Bit, Calculate, Shift, Move, UseStack;
    BitColumns(row);
    DestinationResolved(m);
    StepRuns(m, 16 * row + 15, Instruction(if row < 8 then Bbr(row) else Bbs(row - 8), PCRelative), Destination(m));
  }

  /** An instruction of one byte that does not jump moves the program counter one up. */
  lemma OneByteStep(m: Machine, opcode: byte, op: Operation, mode: AddressingMode, after: Machine)
    requires Fetches(m, opcode) && Decode(opcode) == Some(Instruction(op, mode))
    requires mode == Implied || mode == Stack
    requires Exec(m, op, if mode == Stack then m.s else 0) == Done(after) && after.pc == m.pc
    ensures Next(m) == after.(pc := (m.pc + 1) % 0x1_0000)
  {
    hide Decode, Isa, Exec;
    StepRuns(m, opcode, Instruction(op, mode), if mode == Stack then m.s else 0);
  }

  lemma SetExec(m: Machine, flag: PsrBit, value: bool)
    ensures Exec(m, SetFlag(flag, value), 0) == Done(m.(p := m.p.Set(flag, value)))
    ensures Exec(m, Nop, 0) == Done(m)
  {
    hide Flags.Set, Calculate, Shift, Move, UseStack;
  }

  lemma SetStep(m: Machine, opcode: byte, flag: PsrBit, value: bool)
    requires Fetches(m, opcode) && Decode(opcode) == Some(Instruction(SetFlag(flag, value), Implied))
    ensures Next(m) == m.(pc := (m.pc + 1) % 0x1_0000, p := m.p.Set(flag, value))
  {
    hide Decode, Isa, Flags.Set, Exec, Next;
    SetExec(m, flag, value);
    OneByteStep(m, opcode, SetFlag(flag, value), Implied, m.(p := m.p.Set(flag, value)));
  }

  lemma NopStep(m: Machine)
    requires Fetches(m, 0xEA)
    ensures Next(m) == m.(pc := (m.pc + 1) % 0x1_0000)
  {
    hide Decode, Isa, Exec, Next;
    TransferEntries();
    SetExec(m, Carry, false);
    OneByteStep(m, 0xEA, Nop, Implied, m);
  }

  /** The flag instructions change their flag and move on by one. */
  lemma FlagStep(m: Machine)
    requires m.isa == Isa()
    ensures var p := m.p;
            var after := m.(pc := (m.pc + 1) % 0x1_0000);
            match m.mem[m.pc]
            case 0x18 => Next(m) == after.(p := p.(c := false))
            case 0x38 => Next(m) == after.(p := p.(c := true))
            case 0x58 => Next(m) == after.(p := p.(i := false))
            case 0x78 => Next(m) == after.(p := p.(i := true))
            case 0xB8 => Next(m) == after.(p := p.(v := false))
            case 0xD8 => Next(m) == after.(p := p.(d := false))
            case 0xF8 => Next(m) == after.(p := p.(d := true))
            case 0xEA => Next(m) == after
            case _ => true
  {
    hide Decode, Isa, Next;
    FlagEntries();
    TransferEntries();
    match m.mem[m.pc] {
      case 0x18 => SetStep(m, 0x18, Carry, false);
      case 0x38 => SetStep(m, 0x38, Carry, true);
      case 0x58 => SetStep(m, 0x58, InterruptDisable, false);
      case 0x78 => SetStep(m, 0x78, InterruptDisable, true);
      case 0xB8 => SetStep(m, 0xB8, Overflow, false);
      case 0xD8 => SetStep(m, 0xD8, DecimalMode, false);
      case 0xF8 => SetStep(m, 0xF8, DecimalMode, true);
      case 0xEA => NopStep(m);
      case _ =>
    }
  }

  /** The jumps: to the address after the opcode, to the one stored there, or to the one
      stored X bytes above there. */
  lemma JumpStep(m: Machine)
    requires m.isa == Isa()
    ensures m.mem[m.pc] == 0x4C ==> Next(m) == m.(pc := CodeAddress(m))
    ensures m.mem[m.pc] == 0x6C && CodeAddress(m) < 0xFFFF ==>
              var low: int, high: int := m.mem[CodeAddress(m)], m.mem[CodeAddress(m) + 1];
              Next(m) == m.(pc := low + 0x100 * high)
    ensures m.mem[m.pc] == 0x7C ==>
              var pointer := (CodeAddress(m) + m.x) % 0x1_0000;
              var low: int, high: int := m.mem[pointer], m.mem[(pointer + 1) % 0x1_0000];
              Next(m) == m.(pc := low + 0x100 * high)
  {
    hide Decode, Isa, Operand16, CodeAddress, Calculate, Shift, Move, UseStack;
    JumpEntries();
    CodeIsOperand(m);
    if m.mem[m.pc] == 0x4C {
      StepRuns(m, 0x4C, Instruction(Jmp, Absolute), CodeAddress(m));
    } else if m.mem[m.pc] == 0x6C && CodeAddress(m) < 0xFFFF {
      var pointer := CodeAddress(m);
      StepRuns(m, 0x6C, Instruction(Jmp, AbsoluteIndirect), Word(m, pointer));
    } else if m.mem[m.pc] == 0x7C {
      var pointer := (CodeAddress(m) + m.x) % 0x1_0000;
      StepRuns(m, 0x7C, Instruction(Jmp, AbsoluteIndexedIndirect), Word(m, pointer));
    }
  }

  /** DBG and STP change nothing but the program counter; DBG reports to the debugger
      when debugging is on. */
  lemma HaltSteps(m: Machine)
    requires m.isa == Isa()
    ensures var after := m.(pc := (m.pc + 1) % 0x1_0000);
            && (m.mem[m.pc] == 0x02 ==> Step(m) == StepResult(after, if m.debug then GoToDebugger else OK))
            && (m.mem[m.pc] == 0xDB ==> Step(m) == StepResult(after, Stop))
  {
    hide Decode, Isa, Step, Calculate, Shift, Move, UseStack;
    JumpEntries();
    if m.mem[m.pc] == 0x02 {
      StepRuns(m, 0x02, Instruction(Dbg, Implied), 0);
    } else if m.mem[m.pc] == 0xDB {
      StpStep(m);
    }
  }

  lemma PushExec(m: Machine, addr: word)
    ensures Exec(m, Pha, addr) == Done(Push(m, m.a)) && Exec(m, Phx, addr) == Done(Push(m, m.x))
  {
    hide Push, Calculate, Shift, Move, Direct;
  }

  lemma MorePushExec(m: Machine, addr: word)
    ensures Exec(m, Phy, addr) == Done(Push(m, m.y)) && Exec(m, Php, addr) == Done(Push(m, Pack(m.p.(b := true))))
  {
    hide Pack, Push, Calculate, Shift, Move, Direct;
  }

  lemma PullExec(m: Machine, addr: word)
    ensures var v, after := m.mem[m.s], m.(s := (m.s + 1) % 0x100);
            Exec(m, Pla, addr) == Done(after.(a := v)) && Exec(m, Plx, addr) == Done(after.(x := v))
  {
    hide Up, Calculate, Shift, Move, Direct;
    UpTwice(m);
  }

  lemma MorePullExec(m: Machine, addr: word)
    ensures var v, after := m.mem[m.s], m.(s := (m.s + 1) % 0x100);
            Exec(m, Ply, addr) == Done(after.(y := v)) && Exec(m, Plp, addr) == Done(after.(p := Unpack(v)))
  {
    hide Unpack, Up, Calculate, Shift, Move, Direct;
    UpTwice(m);
  }

  lemma ToXExec(m: Machine, addr: word)
    ensures Exec(m, Tax, addr) == Done(m.(x := m.a)) && Exec(m, Tsx, addr) == Done(m.(x := m.s))
  {
    hide Calculate, Shift, Move, UseStack;
  }

  lemma ToAExec(m: Machine, addr: word)
    ensures Exec(m, Txa, addr) == Done(m.(a := m.x)) && Exec(m, Tya, addr) == Done(m.(a := m.y))
  {
    hide Calculate, Shift, Move, UseStack;
  }

  lemma ToYAndSExec(m: Machine, addr: word)
    ensures Exec(m, Tay, addr) == Done(m.(y := m.a)) && Exec(m, Txs, addr) == Done(m.(s := m.x))
  {
    hide Calculate, Shift, Move, UseStack;
  }

  lemma PushKeepsPC(m: Machine, v: byte)
    ensures Push(m, v).pc == m.pc
  {
  }

  /** Pushes. */
  lemma PushStep(m: Machine)
    requires m.isa == Isa()
    ensures m.mem[m.pc] == 0x48 ==> Next(m) == Push(m, m.a).(pc := (m.pc + 1) % 0x1_0000)
    ensures m.mem[m.pc] == 0xDA ==> Next(m) == Push(m, m.x).(pc := (m.pc + 1) % 0x1_0000)
    ensures m.mem[m.pc] == 0x5A ==> Next(m) == Push(m, m.y).(pc := (m.pc + 1) % 0x1_0000)
    ensures m.mem[m.pc] == 0x08 ==> Next(m) == Push(m, Pack(m.p.(b := true))).(pc := (m.pc + 1) % 0x1_0000)
  {
    hide Decode, Isa, Next, Pack, Push, Exec;
    PushPullEntries();
    PushExec(m, m.s);
    MorePushExec(m, m.s);
    match m.mem[m.pc] {
      case 0x48 => PushedStep(m, 0x48, Pha, m.a);
      case 0xDA => PushedStep(m, 0xDA, Phx, m.x);
      case 0x5A => PushedStep(m, 0x5A, Phy, m.y);
      case 0x08 => PushedStep(m, 0x08, Php, Pack(m.p.(b := true)));
      case _ =>
    }
  }

  lemma PushedStep(m: Machine, opcode: byte, op: Operation, v: byte)
    requires Fetches(m, opcode) && Decode(opcode) == Some(Instruction(op, Stack))
    requires Exec(m, op, m.s) == Done(Push(m, v))
    ensures Next(m) == Push(m, v).(pc := (m.pc + 1) % 0x1_0000)
  {
    hide Decode, Isa, Exec, Push, Next;
    PushKeepsPC(m, v);
    OneByteStep(m, opcode, op, Stack, Push(m, v));
  }

  /** Pulls: the byte S points at, and S one up. */
  lemma PullStep(m: Machine)
    requires m.isa == Isa()
    ensures var v, after := m.mem[m.s], m.(pc := (m.pc + 1) % 0x1_0000, s := (m.s + 1) % 0x100);
            && (m.mem[m.pc] == 0x68 ==> Next(m) == after.(a := v))
            && (m.mem[m.pc] == 0xFA ==> Next(m) == after.(x := v))
            && (m.mem[m.pc] == 0x7A ==> Next(m) == after.(y := v))
            && (m.mem[m.pc] == 0x28 ==> Next(m) == after.(p := Unpack(v)))
  {
    hide Decode, Isa, Next, Unpack, Exec;
    PushPullEntries();
    PullExec(m, m.s);
    MorePullExec(m, m.s);
    var v, after := m.mem[m.s], m.(s := (m.s + 1) % 0x100);
    match m.mem[m.pc] {
      case 0x68 => OneByteStep(m, 0x68, Pla, Stack, after.(a := v));
      case 0xFA => OneByteStep(m, 0xFA, Plx, Stack, after.(x := v));
      case 0x7A => OneByteStep(m, 0x7A, Ply, Stack, after.(y := v));
      case 0x28 => OneByteStep(m, 0x28, Plp, Stack, after.(p := Unpack(v)));
      case _ =>
    }
  }

  /** Transfers, which set no flags as coded. */
  lemma TransferStep(m: Machine)
    requires m.isa == Isa()
    ensures var after := m.(pc := (m.pc + 1) % 0x1_0000);
            && (m.mem[m.pc] == 0xAA ==> Next(m) == after.(x := m.a))
            && (m.mem[m.pc] == 0x8A ==> Next(m) == after.(a := m.x))
            && (m.mem[m.pc] == 0xA8 ==> Next(m) == after.(y := m.a))
            && (m.mem[m.pc] == 0x98 ==> Next(m) == after.(a := m.y))
            && (m.mem[m.pc] == 0xBA ==> Next(m) == after.(x := m.s))
            && (m.mem[m.pc] == 0x9A ==> Next(m) == after.(s := m.x))
  {
    hide Decode, Isa, Next, Exec;
    TransferEntries();
    ToXExec(m, 0);
    ToAExec(m, 0);
    ToYAndSExec(m, 0);
    match m.mem[m.pc] {
      case 0xAA => OneByteStep(m, 0xAA, Tax, Implied, m.(x := m.a));
      case 0x8A => OneByteStep(m, 0x8A, Txa, Implied, m.(a := m.x));
      case 0xA8 => OneByteStep(m, 0xA8, Tay, Implied, m.(y := m.a));
      case 0x98 => OneByteStep(m, 0x98, Tya, Implied, m.(a := m.y));
      case 0xBA => OneByteStep(m, 0xBA, Tsx, Implied, m.(x := m.s));
      case 0x9A => OneByteStep(m, 0x9A, Txs, Implied, m.(s := m.x));
      case _ =>
    }
  }
}
