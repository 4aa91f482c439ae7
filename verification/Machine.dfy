/** The simulated machine as a value, and one step of it: fetch, resolve the operand
    address, execute, advance the program counter (6502cpu.cpp and 6502isa.cpp).
    Flags are booleans and addresses plain integers here; the class in Cpu.dfy works
    on the packed status byte and the memory array and is proved to do the same. */
module MachineModel {
  import opened Bytes
  import opened Status
  import opened Alu
  import opened InstructionSet

  const MEMORY_SIZE := 0x1_0000

  type Memory = s: seq<byte> | |s| == 0x1_0000 witness seq(0x1_0000, _ => 0)

  /** Registers, flags, memory, the print device (its address and what it printed),
      the opcode table and the debug switch. */
  datatype Machine = Machine(
    a: byte, x: byte, y: byte, s: byte, p: Flags, pc: word,
    mem: Memory, dev: word, log: seq<byte>,
    isa: map<byte, Instruction>, debug: bool)

  // ---------------------------------------------------------------- memory and stack

  /** A store: a byte written to the print device is printed as well. */
  function Write(m: Machine, addr: word, v: byte): Machine {
    m.(mem := m.mem[addr := v], log := if addr == m.dev then m.log + [v] else m.log)
  }

  /** The stack pointer `d` cells up the ring of page zero, or down when `d` is negative. */
  function Moved(s: byte, d: int): byte
    requires -0x100 <= d <= 0x100
  {
    if s + d < 0 then s + d + 0x100 else if s + d < 0x100 then s + d else s + d - 0x100
  }

  function Up(s: byte): byte {
    Moved(s, 1)
  }

  function Down(s: byte): byte {
    Moved(s, -1)
  }

  lemma MovedOnce(s: byte, d: int)
    requires -0x100 <= d <= 0x100
    ensures d < 0x100 ==> Moved(Down(s), d + 1) == Moved(s, d)
    ensures d > -0x100 ==> Moved(Up(s), d - 1) == Moved(s, d)
    ensures Moved(s, 0) == s
  {
  }

  /** Push decrements first; the stack is in page zero. */
  function Push(m: Machine, v: byte): Machine {
    var s := Down(m.s);
    Write(m.(s := s), s, v)
  }

  function Top(m: Machine): byte {
    m.mem[m.s]
  }

  function Drop(m: Machine): Machine {
    m.(s := Up(m.s))
  }

  // ---------------------------------------------------------------- addressing

  function Operand8(m: Machine): byte {
    m.mem[(m.pc + 1) % 0x1_0000]
  }

  /** The 16-bit value with its low byte at one address and its high byte at another. */
  function Pair(mem: Memory, low: word, high: word): word {
    var first: int, second: int := mem[low], mem[high];
    first + 0x100 * second
  }

  function Word(m: Machine, addr: word): word {
    Pair(m.mem, addr, (addr + 1) % 0x1_0000)
  }

  function Operand16(m: Machine): word {
    Word(m, (m.pc + 1) % 0x1_0000)
  }

  datatype Operand = At(addr: word) | Beyond

  /** The operand address in plain integers. `Beyond`: it would have to be read from
      past the end of memory. An implied operand has no address; 0 stands for it. */
  function Resolve(m: Machine, mode: AddressingMode): Operand {
    match mode
    case Absolute => At(Operand16(m))
    case AbsoluteIndexedIndirect => At(Word(m, (Operand16(m) + m.x) % 0x1_0000))
    case AbsoluteIndexedX => At((Operand16(m) + m.x) % 0x1_0000)
    case AbsoluteIndexedY => At((Operand16(m) + m.y) % 0x1_0000)
    case AbsoluteIndirect => if Operand16(m) == 0xFFFF then Beyond else At(Word(m, Operand16(m)))
    case Accumulator => At(m.a)
    case Immediate => At((m.pc + 1) % 0x1_0000)
    case Implied => At(0)
    case PCRelative => At((m.pc + 2 + Signed(Operand8(m))) % 0x1_0000)
    case Stack => At(m.s)
    case ZeroPage => At(Operand8(m))
    case ZeroPageIndexedIndirect => At(Word(m, (Operand8(m) + m.x) % 0x100))
    case ZeroPageIndexedX => At((Operand8(m) + m.x) % 0x100)
    case ZeroPageIndexedY => At((Operand8(m) + m.y) % 0x100)
    case ZeroPageIndirect => At(Word(m, Operand8(m)))
    case ZeroPageIndirectIndexedY => At((Word(m, Operand8(m)) + m.y) % 0x1_0000)
  }

  // ---------------------------------------------------------------- execution

  datatype StepResult = StepResult(m: Machine, err: InstructionErr)

  function Done(m: Machine): StepResult {
    StepResult(m, OK)
  }

  function Goto(m: Machine, pc: word): StepResult {
    StepResult(m.(pc := pc), OKPCModified)
  }

  function GotoIf(m: Machine, taken: bool, pc: word): StepResult {
    if taken then Goto(m, pc) else Done(m)
  }

  function SetA(m: Machine, v: byte): Machine {
    m.(a := v, p := m.p.OfValue(v))
  }

  function SetX(m: Machine, v: byte): Machine {
    m.(x := v, p := m.p.OfValue(v))
  }

  function SetY(m: Machine, v: byte): Machine {
    m.(y := v, p := m.p.OfValue(v))
  }

  function SetAlu(m: Machine, r: Sum): Machine {
    m.(a := r.value, p := m.p.(c := r.carry, v := r.overflow).OfValue(r.value))
  }

  /** A store that also sets N and Z from the stored value. */
  function Store(m: Machine, addr: word, v: byte): Machine {
    Write(m.(p := m.p.OfValue(v)), addr, v)
  }

  function WithCarry(m: Machine, c: bool): Machine {
    m.(p := m.p.(c := c))
  }

  /** CMP: C is "not below", Z is equality, N the sign of the difference. */
  function Compare(m: Machine, acc: byte, v: byte): Machine {
    m.(p := m.p.(c := acc >= v, z := acc == v, n := (acc - v) % 0x100 >= 0x80))
  }

  /** CPX, CPY and CMP 0xD2 as coded: C is the borrow and Z is always set. */
  function CompareBorrow(m: Machine, reg: byte, v: byte): Machine {
    m.(p := m.p.(c := reg < v, z := true, n := (reg - v) % 0x100 >= 0x80))
  }

  /** Arithmetic, logic and counting in the registers. */
  function Calculate(m: Machine, op: Operation, addr: word): Machine
    requires op.Group() == Arithmetic
  {
    match op
    case Adc => SetAlu(m, Adc8(m.a, m.mem[addr], m.p.c))
    case Sbc => SetAlu(m, Sbc8(m.a, m.mem[addr], m.p.c))
    case Cmp => Compare(m, m.a, m.mem[addr])
    case CmpBorrow => CompareBorrow(m, m.a, m.mem[addr])
    case Cpx => CompareBorrow(m, m.x, m.mem[addr])
    case CpxLow => CompareBorrow(m, m.x, Low(addr))
    case Cpy => CompareBorrow(m, m.y, m.mem[addr])
    case CpyLow => CompareBorrow(m, m.y, Low(addr))
    case And => SetA(m, BitAnd(m.a, m.mem[addr]))
    case Ora => SetA(m, BitOr(m.a, m.mem[addr]))
    case Eor => SetA(m, BitXor(m.a, m.mem[addr]))
    case BitLoad =>
      var v := m.mem[addr];
      m.(p := m.p.OfValue(v).(v := Bit(v, 6)))
    case BitTest => m.(p := m.p.OfValue(BitAnd(m.a, m.mem[addr])))
    // INX, INY and DEY set the carry when they wrap; DEX does not.
    case Inx => SetX(WithCarry(m, m.p.c || m.x == 0xFF), (m.x + 1) % 0x100)
    case Iny => SetY(WithCarry(m, m.p.c || m.y == 0xFF), (m.y + 1) % 0x100)
    case Dex => SetX(m, (m.x - 1) % 0x100)
    case Dey => SetY(WithCarry(m, m.p.c || m.y == 0), (m.y - 1) % 0x100)
  }

  /** Shifts, rotates, and counting in memory or the accumulator. */
  function Shift(m: Machine, op: Operation, addr: word): Machine
    requires op.Group() == Shifting
  {
    match op
    case Asl =>
      var r := Rol8(m.mem[addr], false);
      Store(WithCarry(m, r.carry), addr, r.value)
    case AslA =>
      var r := Rol8(m.a, false);
      SetA(WithCarry(m, r.carry), r.value)
    case Lsr =>
      var r := Ror8(m.mem[addr], false);
      Write(m.(p := m.p.(c := r.carry, n := false)), addr, r.value)
    case LsrA =>
      var r := Ror8(m.a, false);
      m.(a := r.value, p := m.p.(c := r.carry, n := false))
    case Rol =>
      var r := Rol8(m.mem[addr], m.p.c);
      Store(WithCarry(m, r.carry), addr, r.value)
    case RolA =>
      var r := Rol8(m.a, m.p.c);
      SetA(WithCarry(m, r.carry), r.value)
    case Ror =>
      var r := Ror8(m.mem[addr], m.p.c);
      Store(WithCarry(m, r.carry), addr, r.value)
    case RorA =>
      var r := Ror8(m.a, m.p.c);
      SetA(WithCarry(m, r.carry), r.value)
    case Inc =>
      var v: int := m.mem[addr];
      Store(m, addr, (v + 1) % 0x100)
    case IncA => SetA(m, (m.a + 1) % 0x100)
    case Dec =>
      var v: int := m.mem[addr];
      Store(m, addr, (v - 1) % 0x100)
    case DecA => SetA(m, (m.a - 1) % 0x100)
  }

  /** Loads, stores and bit changes in memory. */
  function Move(m: Machine, op: Operation, addr: word): Machine
    requires op.Group() == Data
  {
    match op
    case Lda => SetA(m, m.mem[addr])
    case LdaPlain => m.(a := m.mem[addr])
    case Ldx => SetX(m, m.mem[addr])
    case Ldy => SetY(m, m.mem[addr])
    case Sta => Write(m, addr, m.a)
    case Stx => Write(m, addr, m.x)
    case Sty => Write(m, addr, m.y)
    case Stz => Write(m, addr, 0)
    case Tsb =>
      var v := m.mem[addr];
      Write(m.(p := m.p.(z := BitAnd(v, m.a) == 0)), addr, BitOr(v, m.a))
    case Trb =>
      var v := m.mem[addr];
      Write(m.(p := m.p.(z := BitAnd(v, m.a) == 0)), addr, BitAnd(v, BitNot(m.a)))
    case Rmb(k) => Write(m, addr, BitAnd(m.mem[addr], BitNot(Mask(k))))
    case Smb(k) => Write(m, addr, BitOr(m.mem[addr], Mask(k)))
  }

  /** JSR pushes its own address. */
  function Call(m: Machine, addr: word): StepResult {
    Goto(Push(Push(m, High(m.pc)), Low(m.pc)), addr)
  }

  /** RTS skips the three bytes of the JSR it returns to. */
  function Return(m: Machine): StepResult {
    Goto(Drop(Drop(m)), (Pair(m.mem, m.s, Up(m.s)) + 3) % 0x1_0000)
  }

  /** BRK pushes its own address and the flags, then sets the break flag. */
  function Interrupt(m: Machine): StepResult {
    var pushed := Push(Push(Push(m, High(m.pc)), Low(m.pc)), Pack(m.p));
    Goto(pushed.(p := m.p.(b := true)), Pair(pushed.mem, 0xFFFE, 0xFFFF))
  }

  /** RTI takes the flags byte as it is and skips the one byte of the BRK. */
  function ReturnFromInterrupt(m: Machine): StepResult {
    Goto(Drop(Drop(Drop(m))).(p := Unpack(Top(m))), (Pair(m.mem, Up(m.s), Up(Up(m.s))) + 1) % 0x1_0000)
  }

  /** Calls, returns, interrupts, pushes and pulls. */
  function UseStack(m: Machine, op: Operation, addr: word): StepResult
    requires op.Group() == Stacking
  {
    match op
    case Jsr => Call(m, addr)
    case Rts => Return(m)
    case Brk => Interrupt(m)
    case Rti => ReturnFromInterrupt(m)
    case Pha => Done(Push(m, m.a))
    case Phx => Done(Push(m, m.x))
    case Phy => Done(Push(m, m.y))
    case Php => Done(Push(m, Pack(m.p.(b := true))))
    case Pla => Done(Drop(m).(a := Top(m)))
    case Plx => Done(Drop(m).(x := Top(m)))
    case Ply => Done(Drop(m).(y := Top(m)))
    case Plp => Done(Drop(m).(p := Unpack(Top(m))))
  }

  /** Branches, jumps, flags and transfers. */
  function Direct(m: Machine, op: Operation, addr: word): StepResult
    requires op.Group() == Control
  {
    match op
    // The byte tested is the one at the branch target; BBS always tests bit 0.
    case Bbr(k) => GotoIf(m, !Bit(m.mem[addr], k), addr)
    case Bbs(k) => GotoIf(m, Bit(m.mem[addr], 0), addr)
    case Branch(flag, when) => GotoIf(m, m.p.Get(flag) == when, addr)
    case Bra => Goto(m, addr)
    case Jmp => Goto(m, addr)
    case SetFlag(flag, value) => Done(m.(p := m.p.Set(flag, value)))
    case Tax => Done(m.(x := m.a))
    case Tay => Done(m.(y := m.a))
    case Txa => Done(m.(a := m.x))
    case Tya => Done(m.(a := m.y))
    case Tsx => Done(m.(x := m.s))
    case Txs => Done(m.(s := m.x))
    case Nop => Done(m)
    case Dbg => StepResult(m, if m.debug then GoToDebugger else OK)
    case Stp => StepResult(m, Stop)
  }

  /** What one opcode does, given its operand address. */
  function Exec(m: Machine, op: Operation, addr: word): StepResult {
    match op.Group()
    case Arithmetic => Done(Calculate(m, op, addr))
    case Shifting => Done(Shift(m, op, addr))
    case Data => Done(Move(m, op, addr))
    case Stacking => UseStack(m, op, addr)
    case Control => Direct(m, op, addr)
  }

  // ---------------------------------------------------------------- one step

  predicate Known(m: Machine) {
    m.mem[m.pc] in m.isa
  }

  function Fetched(m: Machine): Instruction
    requires Known(m)
  {
    m.isa[m.mem[m.pc]]
  }

  /** The opcode is in the table and its operand address lies inside memory. */
  predicate Ready(m: Machine) {
    Known(m) && Resolve(m, Fetched(m).mode) != Beyond
  }

  function Address(m: Machine): word
    requires Ready(m)
  {
    Resolve(m, Fetched(m).mode).addr
  }

  function Advance(r: StepResult, mode: AddressingMode): StepResult {
    if r.err == OKPCModified then r
    else r.(m := r.m.(pc := (r.m.pc + BytesForAddressingMode(mode)) % 0x1_0000))
  }

  function Step(m: Machine): StepResult {
    if !Known(m) then StepResult(m, UnknownInstruction)
    else if !Ready(m) then StepResult(m, OutOfRange)
    else Advance(Exec(m, Fetched(m).op, Address(m)), Fetched(m).mode)
  }

  function Next(m: Machine): Machine {
    Step(m).m
  }

  /** The machine after `k` steps. */
  function Iterate(m: Machine, k: nat): Machine
    decreases k
  {
    if k == 0 then m else Iterate(Next(m), k - 1)
  }

  lemma {:induction false} IterateLast(m: Machine, k: nat)
    ensures Iterate(m, k + 1) == Next(Iterate(m, k))
    decreases k
  {
    hide Next;
    if k == 0 {
    } else {
      IterateLast(Next(m), k - 1);
    }
  }

  lemma {:induction false} IterateAdd(m: Machine, j: nat, k: nat)
    ensures Iterate(m, j + k) == Iterate(Iterate(m, j), k)
    decreases j
  {
    hide Next;
    if j == 0 {
    } else {
      IterateAdd(Next(m), j - 1, k);
    }
  }

  /** The machine right after reset. */
  function Reset(mem: Memory, dev: word, debug: bool): Machine {
    Machine(0, 0, 0, 0xFF, Unpack(0x24), Pair(mem, 0xFFFC, 0xFFFD), mem, dev, [], Isa(), debug)
  }
}
