/** Where each addressing mode points, from the bytes after the opcode; what the index
    registers do to it; and how the length of an instruction follows from the bytes its
    operand depends on (6502cpu.cpp and instruction_types.h). */
module Indexing {
  import opened Bytes
  import opened InstructionSet
  import opened MachineModel
  import opened Addressing
  import opened Opcodes
  import Effects

  /** The word stored at a cell and the next. */
  function Pointed(m: Machine, pointer: word): word {
    var low: int, high: int := m.mem[pointer], m.mem[(pointer + 1) % 0x1_0000];
    low + 0x100 * high
  }

  /** The modes that no index register enters. */
  lemma PlainModes(m: Machine)
    ensures Resolve(m, Absolute) == At(CodeAddress(m))
    ensures Resolve(m, ZeroPage) == At(Code(m, 1))
    ensures Resolve(m, Immediate) == At((m.pc + 1) % 0x1_0000)
    ensures Resolve(m, PCRelative) == At(Destination(m))
    ensures Resolve(m, ZeroPageIndirect) == At(Pointed(m, Code(m, 1)))
    ensures Resolve(m, AbsoluteIndirect) == if CodeAddress(m) == 0xFFFF then Beyond else At(Pointed(m, CodeAddress(m)))
    ensures Resolve(m, Accumulator) == At(m.a) && Resolve(m, Stack) == At(m.s)
  {
    hide Operand8, Operand16, CodeAddress, Code, Destination;
    CodeIsOperand(m);
    DestinationResolved(m);
  }

  // ---------------------------------------------------------------- index registers

  predicate UsesX(mode: AddressingMode) {
    match mode
    case AbsoluteIndexedX | ZeroPageIndexedX | ZeroPageIndexedIndirect | AbsoluteIndexedIndirect => true
    case _ => false
  }

  predicate UsesY(mode: AddressingMode) {
    match mode
    case AbsoluteIndexedY | ZeroPageIndexedY | ZeroPageIndirectIndexedY => true
    case _ => false
  }

  /** The mode without its index. */
  function Unindexed(mode: AddressingMode): AddressingMode {
    match mode
    case AbsoluteIndexedX | AbsoluteIndexedY => Absolute
    case ZeroPageIndexedX | ZeroPageIndexedY => ZeroPage
    case ZeroPageIndexedIndirect | ZeroPageIndirectIndexedY => ZeroPageIndirect
    case AbsoluteIndexedIndirect => AbsoluteIndirect
    case _ => mode
  }

  /** With the index register at 0 the operand is that of the mode without the index.
      (The indexed JMP wraps the pointer 0xFFFF that the plain one reads past.) */
  lemma IndexZero(m: Machine, mode: AddressingMode)
    requires (UsesX(mode) && m.x == 0) || (UsesY(mode) && m.y == 0)
    ensures Resolve(m, Unindexed(mode)) != Beyond ==> Resolve(m, mode) == Resolve(m, Unindexed(mode))
    ensures mode != AbsoluteIndexedIndirect ==> Resolve(m, Unindexed(mode)) != Beyond
  {
    hide Operand8, Operand16, Word;
  }

  /** Only the register of the mode enters the operand, and no register the others. */
  lemma OtherRegisters(m: Machine, n: Machine, mode: AddressingMode)
    requires m.pc == n.pc && m.mem == n.mem
    requires UsesX(mode) ==> m.x == n.x
    requires UsesY(mode) ==> m.y == n.y
    requires mode == Accumulator ==> m.a == n.a
    requires mode == Stack ==> m.s == n.s
    ensures Resolve(m, mode) == Resolve(n, mode)
  {
  }

  /** The machine with one more in the index register of the mode. */
  function OneMore(m: Machine, mode: AddressingMode): Machine
    requires UsesX(mode) || UsesY(mode)
    requires UsesX(mode) ==> m.x < 0xFF
    requires UsesY(mode) ==> m.y < 0xFF
  {
    if UsesX(mode) then m.(x := m.x + 1) else m.(y := m.y + 1)
  }

  lemma SameCode(m: Machine, n: Machine)
    requires m.pc == n.pc && m.mem == n.mem
    ensures Operand8(n) == Operand8(m) && Operand16(n) == Operand16(m)
    ensures Word(n, Operand8(n)) == Word(m, Operand8(m))
  {
  }

  lemma RoundMore(base: nat, i: nat, size: nat)
    requires size == 0x100 || size == 0x1_0000
    ensures (base + (i + 1)) % size == ((base + i) % size + 1) % size
  {
  }

  /** One more in the index register moves the operand one cell up, round `size` cells. */
  predicate MovesUp(m: Machine, mode: AddressingMode, size: nat)
    requires UsesX(mode) || UsesY(mode)
    requires UsesX(mode) ==> m.x < 0xFF
    requires UsesY(mode) ==> m.y < 0xFF
    requires size > 0
  {
    var here, there := Resolve(m, mode), Resolve(OneMore(m, mode), mode);
    here.At? && there.At? && there.addr == (here.addr + 1) % size
  }

  lemma ZeroPageStep(m: Machine)
    ensures m.x < 0xFF ==> MovesUp(m, ZeroPageIndexedX, 0x100)
    ensures m.y < 0xFF ==> MovesUp(m, ZeroPageIndexedY, 0x100)
  {
    hide Operand8;
    SameCode(m, m.(x := if m.x < 0xFF then m.x + 1 else 0));
    SameCode(m, m.(y := if m.y < 0xFF then m.y + 1 else 0));
    RoundMore(Operand8(m), m.x, 0x100);
    RoundMore(Operand8(m), m.y, 0x100);
  }

  lemma AbsoluteStep(m: Machine)
    ensures m.x < 0xFF ==> MovesUp(m, AbsoluteIndexedX, 0x1_0000)
    ensures m.y < 0xFF ==> MovesUp(m, AbsoluteIndexedY, 0x1_0000)
  {
    hide Operand16;
    SameCode(m, m.(x := if m.x < 0xFF then m.x + 1 else 0));
    SameCode(m, m.(y := if m.y < 0xFF then m.y + 1 else 0));
    RoundMore(Operand16(m), m.x, 0x1_0000);
    RoundMore(Operand16(m), m.y, 0x1_0000);
  }

  lemma IndirectStep(m: Machine)
    requires m.y < 0xFF
    ensures MovesUp(m, ZeroPageIndirectIndexedY, 0x1_0000)
  {
    hide Operand8, Word;
    SameCode(m, m.(y := m.y + 1));
    RoundMore(Word(m, Operand8(m)), m.y, 0x1_0000);
  }

  /** One more in the index register moves the operand one cell up: round the 64 KiB, or
      round the zero page in the zero-page modes. */
  lemma IndexStep(m: Machine, mode: AddressingMode)
    requires (UsesX(mode) || UsesY(mode)) && mode != ZeroPageIndexedIndirect && mode != AbsoluteIndexedIndirect
    requires UsesX(mode) ==> m.x < 0xFF
    requires UsesY(mode) ==> m.y < 0xFF
    ensures MovesUp(m, mode, if mode == ZeroPageIndexedX || mode == ZeroPageIndexedY then 0x100 else 0x1_0000)
  {
    hide MovesUp;
    match mode {
      case ZeroPageIndexedX | ZeroPageIndexedY => ZeroPageStep(m);
      case AbsoluteIndexedX | AbsoluteIndexedY => AbsoluteStep(m);
      case ZeroPageIndirectIndexedY => IndirectStep(m);
    }
  }

  /** In the indexed-indirect modes the index moves the pointer: the operand is what is
      stored at the pointer X cells above the one the code names. */
  lemma IndexedPointers(m: Machine)
    ensures Resolve(m, ZeroPageIndexedIndirect) == At(Pointed(m, (Code(m, 1) + m.x) % 0x100))
    ensures Resolve(m, AbsoluteIndexedIndirect) == At(Pointed(m, (CodeAddress(m) + m.x) % 0x1_0000))
  {
    hide Operand8, Operand16, CodeAddress, Code;
    CodeIsOperand(m);
  }

  // ---------------------------------------------------------------- lengths

  /** The operand of `mode` can change with the cell `a` alone. */
  ghost predicate DependsOn(m: Machine, mode: AddressingMode, a: word) {
    exists n1: Machine, n2: Machine :: Differ(m, n1, n2, mode, a)
  }

  predicate Differ(m: Machine, n1: Machine, n2: Machine, mode: AddressingMode, a: word) {
    && SameRegisters(m, n1) && SameRegisters(m, n2)
    && n2.mem == n1.mem[a := n2.mem[a]]
    && Resolve(n1, mode) != Resolve(n2, mode)
  }

  /** A cell that is not among those read for the operand does not matter. */
  lemma IndependentOf(m: Machine, mode: AddressingMode, a: word)
    requires forall n: Machine :: SameRegisters(m, n) ==> a !in Reads(n, mode)
    ensures !DependsOn(m, mode, a)
  {
    hide Resolve, Reads, Decides;
    if DependsOn(m, mode, a) {
      var n1: Machine, n2: Machine :| Differ(m, n1, n2, mode, a);
      SameAlong(n1, n2, mode, a);
    }
  }

  lemma SameAlong(n1: Machine, n2: Machine, mode: AddressingMode, a: word)
    requires SameRegisters(n1, n2) && a !in Reads(n1, mode) && n2.mem == n1.mem[a := n2.mem[a]]
    ensures Resolve(n1, mode) == Resolve(n2, mode)
  {
    hide Resolve, Reads;
    var indices := Reads(n1, mode);
    assert indices[..|indices|] == indices;
    forall i | 0 <= i < |indices| && 0 <= indices[i] < MEMORY_SIZE
      ensures n1.mem[indices[i]] == n2.mem[indices[i]]
    {
      assert indices[i] in indices;
    }
    ReadsSuffice(n1, n2, mode, |indices|);
  }

  lemma FirstMatters(m: Machine, mode: AddressingMode)
    requires |Reads(m, mode)| > 0
    ensures DependsOn(m, mode, First(m))
  {
    hide Resolve, First, Second;
    if FollowsPointer(mode) {
      var n1, n2 := OperandByteNeeded(m, mode, 0);
      assert Differ(m, n1, n2, mode, First(m));
    } else {
      DirectByteNeeded(m, mode, 0);
      assert Differ(m, With(m, First(m), 0), With(m, First(m), 1), mode, First(m));
    }
  }

  /** The modes with a 16-bit operand. */
  predicate Wide(mode: AddressingMode) {
    mode == Absolute || mode == AbsoluteIndexedX || mode == AbsoluteIndexedY || WidePointer(mode)
  }

  lemma SecondMatters(m: Machine, mode: AddressingMode)
    requires Wide(mode)
    ensures DependsOn(m, mode, Second(m))
  {
    hide Resolve, First, Second;
    if FollowsPointer(mode) {
      var n1, n2 := OperandByteNeeded(m, mode, 1);
      assert Differ(m, n1, n2, mode, Second(m));
    } else {
      DirectByteNeeded(m, mode, 1);
      assert Differ(m, With(m, Second(m), 0), With(m, Second(m), 1), mode, Second(m));
    }
  }

  lemma Unread(m: Machine, n: Machine, mode: AddressingMode)
    requires SameRegisters(m, n) && 0x100 <= m.pc < 0xFFFE
    ensures Reads(m, mode) == [] ==> First(m) !in Reads(n, mode) && Second(m) !in Reads(n, mode)
    ensures !Wide(mode) ==> Second(m) !in Reads(n, mode)
  {
    hide Operand8, Operand16;
  }

  /** An instruction is as long as its opcode and the bytes after it that its operand
      depends on, the code being clear of the zero page. Immediate operands are in the
      code itself; the indexed JMP has length 1 although it depends on two. */
  lemma LengthIsOperandBytes(m: Machine, mode: AddressingMode)
    requires 0x100 <= m.pc < 0xFFFE
    ensures mode != Immediate && mode != AbsoluteIndexedIndirect ==>
              BytesForAddressingMode(mode)
              == 1 + Num(DependsOn(m, mode, m.pc + 1)) + Num(DependsOn(m, mode, m.pc + 2))
    ensures BytesForAddressingMode(Immediate) == 2
    ensures BytesForAddressingMode(AbsoluteIndexedIndirect) == 1
    ensures DependsOn(m, AbsoluteIndexedIndirect, m.pc + 1) && DependsOn(m, AbsoluteIndexedIndirect, m.pc + 2)
  {
    hide DependsOn, Differ, Operand8, Operand16;
    FirstMatters(m, AbsoluteIndexedIndirect);
    SecondMatters(m, AbsoluteIndexedIndirect);
    forall n: Machine | SameRegisters(m, n)
      ensures Reads(m, mode) == [] ==> First(m) !in Reads(n, mode) && Second(m) !in Reads(n, mode)
      ensures !Wide(mode) ==> Second(m) !in Reads(n, mode)
    {
      Unread(m, n, mode);
    }
    if Reads(m, mode) == [] {
      IndependentOf(m, mode, First(m));
    } else {
      FirstMatters(m, mode);
    }
    if Wide(mode) {
      SecondMatters(m, mode);
    } else {
      IndependentOf(m, mode, Second(m));
    }
  }

  /** So the program counter moves past the opcode and the bytes its operand depends on,
      as they do at any place `n.pc` clear of the zero page. */
  lemma NextInstruction(m: Machine, n: Machine)
    requires Ready(m) && Step(m).err != OKPCModified && 0x100 <= n.pc < 0xFFFE
    ensures var mode := Fetched(m).mode;
            && (mode == Immediate ==> Next(m).pc == (m.pc + 2) % 0x1_0000)
            && (mode != Immediate && mode != AbsoluteIndexedIndirect ==>
                  Next(m).pc == (m.pc + 1 + Num(DependsOn(n, mode, n.pc + 1)) + Num(DependsOn(n, mode, n.pc + 2)))
                                % 0x1_0000)
  {
    hide Next, Step, Resolve, DependsOn;
    Effects.StepAdvances(m);
    LengthIsOperandBytes(n, Fetched(m).mode);
  }
}
