/** Addressing modes, instruction lengths and the opcode table
    (instruction_types.h and the table of 6502isa.cpp). */
module InstructionSet {
  import opened Bytes
  import opened Status

  datatype Option<+T> = None | Some(value: T)

  datatype AddressingMode =
    | Absolute
    | AbsoluteIndexedIndirect
    | AbsoluteIndexedX
    | AbsoluteIndexedY
    | AbsoluteIndirect
    | Accumulator
    | Immediate
    | Implied
    | PCRelative
    | Stack
    | ZeroPage
    | ZeroPageIndexedIndirect
    | ZeroPageIndexedX
    | ZeroPageIndexedY
    | ZeroPageIndirect
    | ZeroPageIndirectIndexedY

  function BytesForAddressingMode(mode: AddressingMode): (n: nat)
    ensures 1 <= n <= 3
  {
    match mode
    case Absolute | AbsoluteIndexedX | AbsoluteIndexedY | AbsoluteIndirect => 3
    case Immediate | PCRelative | ZeroPage | ZeroPageIndexedIndirect
      | ZeroPageIndexedX | ZeroPageIndexedY | ZeroPageIndirect | ZeroPageIndirectIndexedY => 2
    case AbsoluteIndexedIndirect | Accumulator | Implied | Stack => 1
  }

  type bitnum = k: nat | k < 8

  /** What an opcode executes. Opcodes that share a mnemonic but not their code have
      separate names: `CmpBorrow` (0xD2), `CpxLow`/`CpyLow` (the immediate forms, which
      compare with the low byte of the operand address), `LdaPlain` (0xAD, no flags),
      `BitLoad` and `BitTest`, and the `...A` forms that work on the accumulator. */
  datatype Operation =
    | Adc | Sbc | Cmp | CmpBorrow | Cpx | CpxLow | Cpy | CpyLow
    | And | Ora | Eor | BitLoad | BitTest
    | Asl | AslA | Lsr | LsrA | Rol | RolA | Ror | RorA
    | Inc | IncA | Dec | DecA | Inx | Iny | Dex | Dey
    | Lda | LdaPlain | Ldx | Ldy | Sta | Stx | Sty | Stz
    | Tsb | Trb | Rmb(bit: bitnum) | Smb(bit: bitnum)
    | Bbr(bit: bitnum) | Bbs(bit: bitnum)
    | Branch(flag: PsrBit, when: bool) | Bra | Jmp
    | Jsr | Rts | Brk | Rti
    | SetFlag(flag: PsrBit, value: bool)
    | Pha | Phx | Phy | Php | Pla | Plx | Ply | Plp
    | Tax | Tay | Txa | Tya | Tsx | Txs
    | Nop | Dbg | Stp
  {
    function Group(): OperationGroup {
      match this
      case Adc | Sbc | Cmp | CmpBorrow | Cpx | CpxLow | Cpy | CpyLow | And | Ora | Eor
        | BitLoad | BitTest | Inx | Iny | Dex | Dey => Arithmetic
      case Asl | AslA | Lsr | LsrA | Rol | RolA | Ror | RorA | Inc | IncA | Dec | DecA => Shifting
      case Lda | LdaPlain | Ldx | Ldy | Sta | Stx | Sty | Stz | Tsb | Trb | Rmb(_) | Smb(_) => Data
      case Jsr | Rts | Brk | Rti | Pha | Phx | Phy | Php | Pla | Plx | Ply | Plp => Stacking
      case _ => Control
    }
  }

  datatype OperationGroup = Arithmetic | Shifting | Data | Stacking | Control

  datatype Instruction = Instruction(op: Operation, mode: AddressingMode)

  datatype InstructionErr = OK | OKPCModified | SIRaised | UnknownInstruction | GoToDebugger | Stop
                          /** Not a value of the program: marks a step that would read
                              `memory_[0x10000]`, which the program leaves undefined. */
                          | OutOfRange

  /** The table, by the low digit of the opcode as the program lists it. An opcode
      listed twice keeps its first entry. */
  function Decode(opcode: byte): Option<Instruction> {
    match opcode % 16
    case 0 => Column0(opcode)
    case 1 => Column1(opcode)
    case 2 => Column2(opcode)
    case 4 => Column4(opcode)
    case 5 => Column5(opcode)
    case 6 => Column6(opcode)
    case 7 => Column7(opcode)
    case 8 => Column8(opcode)
    case 9 => Column9(opcode)
    case 10 => ColumnA(opcode)
    case 11 => ColumnB(opcode)
    case 12 => ColumnC(opcode)
    case 13 => ColumnD(opcode)
    case 14 => ColumnE(opcode)
    case 15 => ColumnF(opcode)
    case _ => None
  }

  function Column0(opcode: byte): (r: Option<Instruction>)
    ensures r.Some? ==> r.value.mode != AbsoluteIndirect
  {
    match opcode
    case 0x00 => Some(Instruction(Brk, Stack))
    case 0x10 => Some(Instruction(Branch(Negative, false), PCRelative))
    case 0x20 => Some(Instruction(Jsr, Absolute))
    case 0x30 => Some(Instruction(Branch(Negative, true), PCRelative))
    case 0x40 => Some(Instruction(Rti, Stack))
    case 0x50 => Some(Instruction(Branch(Overflow, false), PCRelative))
    case 0x60 => Some(Instruction(Rts, Stack))
    case 0x70 => Some(Instruction(Branch(Overflow, true), PCRelative))
    case 0x80 => Some(Instruction(Bra, PCRelative))
    case 0x90 => Some(Instruction(Branch(Carry, false), PCRelative))
    case 0xA0 => Some(Instruction(Ldy, Immediate))
    case 0xB0 => Some(Instruction(Branch(Carry, true), PCRelative))
    case 0xC0 => Some(Instruction(CpyLow, Immediate))
    case 0xD0 => Some(Instruction(Branch(Zero, false), PCRelative))
    case 0xE0 => Some(Instruction(CpxLow, Immediate))
    case 0xF0 => Some(Instruction(Branch(Zero, true), PCRelative))
    case _ => None
  }

  function Column1(opcode: byte): (r: Option<Instruction>)
    ensures r.Some? ==> r.value.mode != AbsoluteIndirect
  {
    match opcode
    case 0x01 => Some(Instruction(Ora, ZeroPageIndexedIndirect))
    case 0x11 => Some(Instruction(Ora, ZeroPageIndirectIndexedY))
    case 0x21 => Some(Instruction(And, ZeroPageIndexedIndirect))
    case 0x31 => Some(Instruction(And, ZeroPageIndirectIndexedY))
    case 0x41 => Some(Instruction(Eor, ZeroPageIndexedIndirect))
    case 0x51 => Some(Instruction(Eor, ZeroPageIndirectIndexedY))
    case 0x61 => Some(Instruction(Adc, ZeroPageIndexedIndirect))
    case 0x71 => Some(Instruction(Adc, ZeroPageIndirectIndexedY))
    case 0x81 => Some(Instruction(Sta, ZeroPageIndexedIndirect))
    case 0x91 => Some(Instruction(Sta, ZeroPageIndirectIndexedY))
    case 0xA1 => Some(Instruction(Lda, ZeroPageIndexedIndirect))
    case 0xB1 => Some(Instruction(Lda, ZeroPageIndirectIndexedY))
    case 0xC1 => Some(Instruction(Cmp, ZeroPageIndexedIndirect))
    case 0xD1 => Some(Instruction(Cmp, ZeroPageIndirectIndexedY))
    case 0xE1 => Some(Instruction(Sbc, ZeroPageIndexedIndirect))
    case 0xF1 => Some(Instruction(Sbc, ZeroPageIndirectIndexedY))
    case _ => None
  }

  function Column2(opcode: byte): (r: Option<Instruction>)
    ensures r.Some? ==> r.value.mode != AbsoluteIndirect
  {
    match opcode
    case 0x02 => Some(Instruction(Dbg, Implied))
    case 0x12 => Some(Instruction(Ora, ZeroPage))
    case 0x32 => Some(Instruction(And, ZeroPage))
    case 0x52 => Some(Instruction(Eor, ZeroPage))
    case 0x72 => Some(Instruction(Adc, ZeroPage))
    case 0x92 => Some(Instruction(Sta, ZeroPage))
    case 0xA2 => Some(Instruction(Ldx, Immediate))
    case 0xB2 => Some(Instruction(Lda, ZeroPage))
    case 0xD2 => Some(Instruction(CmpBorrow, ZeroPageIndirect))
    case 0xF2 => Some(Instruction(Sbc, ZeroPageIndirect))
    case _ => None
  }

  function Column4(opcode: byte): (r: Option<Instruction>)
    ensures r.Some? ==> r.value.mode != AbsoluteIndirect
  {
    match opcode
    case 0x04 => Some(Instruction(Tsb, ZeroPage))
    case 0x14 => Some(Instruction(Trb, ZeroPage))
    case 0x24 => Some(Instruction(BitLoad, ZeroPage))
    case 0x34 => Some(Instruction(BitLoad, ZeroPageIndexedX))
    case 0x64 => Some(Instruction(Stz, ZeroPage))
    case 0x74 => Some(Instruction(Stz, ZeroPageIndexedX))
    case 0x84 => Some(Instruction(Sty, ZeroPage))
    case 0x94 => Some(Instruction(Sty, ZeroPageIndexedX))
    case 0xA4 => Some(Instruction(Ldy, ZeroPage))
    case 0xB4 => Some(Instruction(Ldy, ZeroPageIndexedX))
    case 0xC4 => Some(Instruction(Cpy, ZeroPage))
    case 0xE4 => Some(Instruction(Cpx, ZeroPage))
    case _ => None
  }

  function Column5(opcode: byte): (r: Option<Instruction>)
    ensures r.Some? ==> r.value.mode != AbsoluteIndirect
  {
    match opcode
    case 0x05 => Some(Instruction(Ora, ZeroPage))
    case 0x15 => Some(Instruction(Ora, ZeroPageIndexedX))
    case 0x25 => Some(Instruction(And, ZeroPage))
    case 0x35 => Some(Instruction(And, ZeroPageIndexedX))
    case 0x45 => Some(Instruction(Eor, ZeroPage))
    case 0x55 => Some(Instruction(Eor, ZeroPageIndexedX))
    case 0x65 => Some(Instruction(Adc, ZeroPage))
    case 0x75 => Some(Instruction(Adc, ZeroPageIndexedX))
    case 0x85 => Some(Instruction(Sta, ZeroPage))
    case 0x95 => Some(Instruction(Sta, ZeroPageIndexedX))
    case 0xA5 => Some(Instruction(Lda, ZeroPage))
    case 0xB5 => Some(Instruction(Lda, ZeroPageIndexedX))
    case 0xC5 => Some(Instruction(Cmp, ZeroPage))
    case 0xD5 => Some(Instruction(Cmp, ZeroPageIndexedX))
    case 0xE5 => Some(Instruction(Sbc, ZeroPage))
    case 0xF5 => Some(Instruction(Sbc, ZeroPageIndexedX))
    case _ => None
  }

  function Column6(opcode: byte): (r: Option<Instruction>)
    ensures r.Some? ==> r.value.mode != AbsoluteIndirect
  {
    match opcode
    case 0x06 => Some(Instruction(Asl, ZeroPage))
    case 0x16 => Some(Instruction(Asl, ZeroPageIndexedX))
    case 0x26 => Some(Instruction(Rol, ZeroPage))
    case 0x36 => Some(Instruction(Rol, ZeroPageIndexedX))
    case 0x46 => Some(Instruction(Lsr, ZeroPage))
    case 0x56 => Some(Instruction(Lsr, ZeroPageIndexedX))
    case 0x66 => Some(Instruction(Ror, ZeroPage))
    case 0x76 => Some(Instruction(Ror, ZeroPageIndexedX))
    case 0x86 => Some(Instruction(Stx, ZeroPage))
    case 0x96 => Some(Instruction(Stx, ZeroPageIndexedY))
    case 0xA6 => Some(Instruction(Ldx, ZeroPage))
    case 0xB6 => Some(Instruction(Ldx, ZeroPageIndexedY))
    case 0xC6 => Some(Instruction(Dec, ZeroPage))
    case 0xD6 => Some(Instruction(Dec, ZeroPageIndexedX))
    case 0xE6 => Some(Instruction(Inc, ZeroPage))
    case 0xF6 => Some(Instruction(Inc, ZeroPageIndexedX))
    case _ => None
  }

  function Column7(opcode: byte): (r: Option<Instruction>)
    ensures r.Some? ==> r.value.mode != AbsoluteIndirect
  {
    match opcode
    case 0x07 => Some(Instruction(Rmb(0), ZeroPage))
    case 0x17 => Some(Instruction(Rmb(1), ZeroPage))
    case 0x27 => Some(Instruction(Rmb(2), ZeroPage))
    case 0x37 => Some(Instruction(Rmb(3), ZeroPage))
    case 0x47 => Some(Instruction(Rmb(4), ZeroPage))
    case 0x57 => Some(Instruction(Rmb(5), ZeroPage))
    case 0x67 => Some(Instruction(Rmb(6), ZeroPage))
    case 0x77 => Some(Instruction(Rmb(7), ZeroPage))
    case 0x87 => Some(Instruction(Smb(0), ZeroPage))
    case 0x97 => Some(Instruction(Smb(1), ZeroPage))
    case 0xA7 => Some(Instruction(Smb(2), ZeroPage))
    case 0xB7 => Some(Instruction(Smb(3), ZeroPage))
    case 0xC7 => Some(Instruction(Smb(4), ZeroPage))
    case 0xD7 => Some(Instruction(Smb(5), ZeroPage))
    case 0xE7 => Some(Instruction(Smb(6), ZeroPage))
    case 0xF7 => Some(Instruction(Smb(7), ZeroPage))
    case _ => None
  }

  function Column8(opcode: byte): (r: Option<Instruction>)
    ensures r.Some? ==> r.value.mode != AbsoluteIndirect
  {
    match opcode
    case 0x08 => Some(Instruction(Php, Stack))
    case 0x18 => Some(Instruction(SetFlag(Carry, false), Implied))
    case 0x28 => Some(Instruction(Plp, Stack))
    case 0x38 => Some(Instruction(SetFlag(Carry, true), Implied))
    case 0x48 => Some(Instruction(Pha, Stack))
    case 0x58 => Some(Instruction(SetFlag(InterruptDisable, false), Implied))
    case 0x68 => Some(Instruction(Pla, Stack))
    case 0x78 => Some(Instruction(SetFlag(InterruptDisable, true), Implied))
    case 0x88 => Some(Instruction(Dey, Implied))
    case 0x98 => Some(Instruction(Tya, Implied))
    case 0xA8 => Some(Instruction(Tay, Implied))
    case 0xB8 => Some(Instruction(SetFlag(Overflow, false), Implied))
    case 0xC8 => Some(Instruction(Iny, Implied))
    case 0xD8 => Some(Instruction(SetFlag(DecimalMode, false), Implied))
    case 0xE8 => Some(Instruction(Inx, Implied))
    case 0xF8 => Some(Instruction(SetFlag(DecimalMode, true), Implied))
    case _ => None
  }

  function Column9(opcode: byte): (r: Option<Instruction>)
    ensures r.Some? ==> r.value.mode != AbsoluteIndirect
  {
    match opcode
    case 0x09 => Some(Instruction(Ora, Immediate))
    case 0x19 => Some(Instruction(Ora, AbsoluteIndexedY))
    case 0x29 => Some(Instruction(And, Immediate))
    case 0x39 => Some(Instruction(And, AbsoluteIndexedY))
    case 0x49 => Some(Instruction(Eor, Immediate))
    case 0x59 => Some(Instruction(Eor, AbsoluteIndexedY))
    case 0x69 => Some(Instruction(Adc, Immediate))
    case 0x79 => Some(Instruction(Adc, AbsoluteIndexedY))
    case 0x89 => Some(Instruction(BitTest, Immediate))
    case 0x99 => Some(Instruction(Sta, AbsoluteIndexedY))
    case 0xA9 => Some(Instruction(Lda, Immediate))
    case 0xB9 => Some(Instruction(Lda, AbsoluteIndexedY))
    case 0xC9 => Some(Instruction(Cmp, Immediate))
    case 0xD9 => Some(Instruction(Cmp, AbsoluteIndexedY))
    case 0xE9 => Some(Instruction(Sbc, Immediate))
    case 0xF9 => Some(Instruction(Sbc, AbsoluteIndexedY))
    case _ => None
  }

  function ColumnA(opcode: byte): (r: Option<Instruction>)
    ensures r.Some? ==> r.value.mode != AbsoluteIndirect
  {
    match opcode
    case 0x0A => Some(Instruction(AslA, Accumulator))
    case 0x1A => Some(Instruction(IncA, Accumulator))
    case 0x2A => Some(Instruction(RolA, Accumulator))
    case 0x3A => Some(Instruction(DecA, Accumulator))
    case 0x4A => Some(Instruction(LsrA, Accumulator))
    case 0x5A => Some(Instruction(Phy, Stack))
    case 0x6A => Some(Instruction(RorA, Accumulator))
    case 0x7A => Some(Instruction(Ply, Stack))
    case 0x8A => Some(Instruction(Txa, Implied))
    case 0x9A => Some(Instruction(Txs, Implied))
    case 0xAA => Some(Instruction(Tax, Implied))
    case 0xBA => Some(Instruction(Tsx, Implied))
    case 0xCA => Some(Instruction(Dex, Implied))
    case 0xDA => Some(Instruction(Phx, Stack))
    case 0xEA => Some(Instruction(Nop, Implied))
    case 0xFA => Some(Instruction(Plx, Stack))
    case _ => None
  }

  function ColumnB(opcode: byte): (r: Option<Instruction>)
    ensures r.Some? ==> r.value.mode != AbsoluteIndirect
  {
    match opcode
    case 0xDB => Some(Instruction(Stp, Implied))
    case _ => None
  }

  function ColumnC(opcode: byte): (r: Option<Instruction>)
    ensures r.Some? && r.value.mode == AbsoluteIndirect <==> opcode == 0x6C
  {
    match opcode
    case 0x0C => Some(Instruction(Tsb, Absolute))
    case 0x1C => Some(Instruction(Trb, Absolute))
    case 0x2C => Some(Instruction(BitTest, Absolute))
    case 0x3C => Some(Instruction(BitTest, AbsoluteIndexedX))
    case 0x4C => Some(Instruction(Jmp, Absolute))
    case 0x6C => Some(Instruction(Jmp, AbsoluteIndirect))
    case 0x7C => Some(Instruction(Jmp, AbsoluteIndexedIndirect))
    case 0x8C => Some(Instruction(Sty, Absolute))
    case 0x9C => Some(Instruction(Stz, Absolute))
    case 0xAC => Some(Instruction(Ldy, Absolute))
    case 0xBC => Some(Instruction(Ldy, AbsoluteIndexedX))
    case 0xCC => Some(Instruction(Cpy, Absolute))
    case 0xEC => Some(Instruction(Cpx, Absolute))
    case _ => None
  }

  function ColumnD(opcode: byte): (r: Option<Instruction>)
    ensures r.Some? ==> r.value.mode != AbsoluteIndirect
  {
    match opcode
    case 0x0D => Some(Instruction(Ora, Absolute))
    case 0x1D => Some(Instruction(Ora, AbsoluteIndexedX))
    case 0x2D => Some(Instruction(And, Absolute))
    case 0x3D => Some(Instruction(And, AbsoluteIndexedX))
    case 0x4D => Some(Instruction(Eor, Absolute))
    case 0x5D => Some(Instruction(Eor, AbsoluteIndexedX))
    case 0x6D => Some(Instruction(Adc, Absolute))
    case 0x7D => Some(Instruction(Adc, AbsoluteIndexedX))
    case 0x8D => Some(Instruction(Sta, Absolute))
    case 0x9D => Some(Instruction(Sta, AbsoluteIndexedX))
    case 0xAD => Some(Instruction(LdaPlain, Absolute))
    case 0xBD => Some(Instruction(Lda, AbsoluteIndexedX))
    case 0xCD => Some(Instruction(Cmp, Absolute))
    case 0xDD => Some(Instruction(Cmp, AbsoluteIndexedX))
    case 0xED => Some(Instruction(Sbc, Absolute))
    case 0xFD => Some(Instruction(Sbc, AbsoluteIndexedX))
    case _ => None
  }

  function ColumnE(opcode: byte): (r: Option<Instruction>)
    ensures r.Some? ==> r.value.mode != AbsoluteIndirect
  {
    match opcode
    case 0x0E => Some(Instruction(Asl, Absolute))
    case 0x1E => Some(Instruction(Asl, AbsoluteIndexedX))
    case 0x2E => Some(Instruction(Rol, Absolute))
    case 0x3E => Some(Instruction(Rol, AbsoluteIndexedX))
    case 0x4E => Some(Instruction(Lsr, Absolute))
    case 0x5E => Some(Instruction(Lsr, AbsoluteIndexedX))
    case 0x6E => Some(Instruction(Ror, Absolute))
    case 0x7E => Some(Instruction(Ror, AbsoluteIndexedX))
    case 0x8E => Some(Instruction(Stx, Absolute))
    case 0x9E => Some(Instruction(Stz, AbsoluteIndexedX))
    case 0xAE => Some(Instruction(Ldx, Absolute))
    case 0xBE => Some(Instruction(Ldx, AbsoluteIndexedY))
    case 0xCE => Some(Instruction(Dec, Absolute))
    case 0xDE => Some(Instruction(Dec, AbsoluteIndexedX))
    case 0xEE => Some(Instruction(Inc, Absolute))
    case 0xFE => Some(Instruction(Inc, AbsoluteIndexedX))
    case _ => None
  }

  function ColumnF(opcode: byte): (r: Option<Instruction>)
    ensures r.Some? ==> r.value.mode != AbsoluteIndirect
  {
    match opcode
    case 0x0F => Some(Instruction(Bbr(0), PCRelative))
    case 0x1F => Some(Instruction(Bbr(1), PCRelative))
    case 0x2F => Some(Instruction(Bbr(2), PCRelative))
    case 0x3F => Some(Instruction(Bbr(3), PCRelative))
    case 0x4F => Some(Instruction(Bbr(4), PCRelative))
    case 0x5F => Some(Instruction(Bbr(5), PCRelative))
    case 0x6F => Some(Instruction(Bbr(6), PCRelative))
    case 0x7F => Some(Instruction(Bbr(7), PCRelative))
    case 0x8F => Some(Instruction(Bbs(0), PCRelative))
    case 0x9F => Some(Instruction(Bbs(1), PCRelative))
    case 0xAF => Some(Instruction(Bbs(2), PCRelative))
    case 0xBF => Some(Instruction(Bbs(3), PCRelative))
    case 0xCF => Some(Instruction(Bbs(4), PCRelative))
    case 0xDF => Some(Instruction(Bbs(5), PCRelative))
    case 0xEF => Some(Instruction(Bbs(6), PCRelative))
    case 0xFF => Some(Instruction(Bbs(7), PCRelative))
    case _ => None
  }

  function Isa(): (isa: map<byte, Instruction>)
    ensures forall opcode: byte :: opcode in isa <==> Decode(opcode).Some?
    ensures forall opcode: byte :: opcode in isa ==> isa[opcode] == Decode(opcode).value
  {
    map opcode: byte | Decode(opcode).Some? :: Decode(opcode).value
  }

  // ---------------------------------------------------------------- the pattern behind the table

  /** The operation the top three bits select in the columns ending in binary 01. */
  function AluOperation(row: nat): Operation
    requires row < 8
  {
    match row
    case 0 => Ora
    case 1 => And
    case 2 => Eor
    case 3 => Adc
    case 4 => Sta
    case 5 => Lda
    case 6 => Cmp
    case 7 => Sbc
  }

  /** The addressing mode the middle three bits select there. */
  function AluMode(column: nat): AddressingMode
    requires column < 8
  {
    match column
    case 0 => ZeroPageIndexedIndirect
    case 1 => ZeroPage
    case 2 => Immediate
    case 3 => Absolute
    case 4 => ZeroPageIndirectIndexedY
    case 5 => ZeroPageIndexedX
    case 6 => AbsoluteIndexedY
    case 7 => AbsoluteIndexedX
  }

  lemma AluColumn1(row: nat)
    requires row < 8
    ensures Decode(32 * row + 1) == Some(Instruction(AluOperation(row), AluMode(0)))
    ensures Decode(32 * row + 17) == Some(Instruction(AluOperation(row), AluMode(4)))
  {
    hide Column0, Column2, Column4, Column5, Column6, Column7, Column8,
      Column9, ColumnA, ColumnB, ColumnC, ColumnD, ColumnE, ColumnF;
    assert (32 * row + 1) % 16 == (32 * row + 17) % 16 == 1;
  }

  lemma AluColumn5(row: nat)
    requires row < 8
    ensures Decode(32 * row + 5) == Some(Instruction(AluOperation(row), AluMode(1)))
    ensures Decode(32 * row + 21) == Some(Instruction(AluOperation(row), AluMode(5)))
  {
    hide Column0, Column1, Column2, Column4, Column6, Column7, Column8,
      Column9, ColumnA, ColumnB, ColumnC, ColumnD, ColumnE, ColumnF;
    assert (32 * row + 5) % 16 == (32 * row + 21) % 16 == 5;
  }

  lemma AluColumn9(row: nat)
    requires row < 8
    ensures row != 4 ==> Decode(32 * row + 9) == Some(Instruction(AluOperation(row), AluMode(2)))
    ensures Decode(32 * row + 25) == Some(Instruction(AluOperation(row), AluMode(6)))
  {
    hide Column0, Column1, Column2, Column4, Column5, Column6, Column7,
      Column8, ColumnA, ColumnB, ColumnC, ColumnD, ColumnE, ColumnF;
    assert (32 * row + 9) % 16 == (32 * row + 25) % 16 == 9;
  }

  lemma AluColumnD(row: nat)
    requires row < 8
    ensures row != 5 ==> Decode(32 * row + 13) == Some(Instruction(AluOperation(row), AluMode(3)))
    ensures Decode(32 * row + 29) == Some(Instruction(AluOperation(row), AluMode(7)))
  {
    hide Column0, Column1, Column2, Column4, Column5, Column6, Column7,
      Column8, Column9, ColumnA, ColumnB, ColumnC, ColumnE, ColumnF;
    assert (32 * row + 13) % 16 == (32 * row + 29) % 16 == 13;
  }

  /** Opcodes ending in binary 01 are a grid of eight operations by eight modes, but for
      0x89 (BIT) and 0xAD (LDA that sets no flags). */
  lemma AluGrid(row: nat, column: nat)
    requires row < 8 && column < 8
    requires !(row == 4 && column == 2) && !(row == 5 && column == 3)
    ensures Decode(32 * row + 4 * column + 1) == Some(Instruction(AluOperation(row), AluMode(column)))
  {
    hide Decode, AluOperation, AluMode;
    match column {
      case 0 | 4 => AluColumn1(row);
      case 1 | 5 => AluColumn5(row);
      case 2 | 6 => AluColumn9(row);
      case 3 | 7 => AluColumnD(row);
    }
  }

  function ShiftOperation(row: nat): Operation
    requires row < 8 && row != 4 && row != 5
  {
    match row
    case 0 => Asl
    case 1 => Rol
    case 2 => Lsr
    case 3 => Ror
    case 6 => Dec
    case 7 => Inc
  }

  /** The read-modify-write opcodes: six operations by four modes. */
  lemma ShiftGrid(row: nat, column: nat)
    requires row < 8 && row != 4 && row != 5
    requires column in {1, 3, 5, 7}
    ensures Decode(32 * row + 4 * column + 2) == Some(Instruction(ShiftOperation(row), AluMode(column)))
  {
    var opcode := 32 * row + 4 * column + 2;
    match column {
      case 1 => assert opcode % 16 == 6;
      case 3 => assert opcode % 16 == 14;
      case 5 => assert opcode % 16 == 6;
      case 7 => assert opcode % 16 == 14;
    }
  }

  /** The single-bit opcodes: the high digit names the bit, and which of the two. */
  lemma BitColumns(row: byte)
    requires row < 16
    ensures Decode(16 * row + 7) ==
            Some(Instruction(if row < 8 then Rmb(row) else Smb(row - 8), ZeroPage))
    ensures Decode(16 * row + 15) ==
            Some(Instruction(if row < 8 then Bbr(row) else Bbs(row - 8), PCRelative))
  {
    assert (16 * row + 7) % 16 == 7 && (16 * row + 15) % 16 == 15;
  }

  /** The conditional branches: the top two bits name the flag, the third its value. */
  lemma BranchColumn(row: byte)
    requires row < 8
    ensures Decode(32 * row + 16) ==
            Some(Instruction(Branch([Negative, Overflow, Carry, Zero][row / 2], row % 2 == 1), PCRelative))
  {
    assert (32 * row + 16) % 16 == 0;
  }

  /** Only the indirect JMP takes its address through an unwrapped pointer. */
  lemma OnlyIndirectJmp(opcode: byte)
    ensures Decode(opcode).Some? && Decode(opcode).value.mode == AbsoluteIndirect <==> opcode == 0x6C
  {
    hide Column0, Column1, Column2, Column4, Column5, Column6, Column7, Column8, Column9, ColumnA, ColumnB, ColumnC,
      ColumnD, ColumnE, ColumnF;
  }

  // ---------------------------------------------------------------- the rest of the table

  /** Calls, interrupts and returns. */
  lemma CallEntries()
    ensures Decode(0x20) == Some(Instruction(Jsr, Absolute))
    ensures Decode(0x60) == Some(Instruction(Rts, Stack))
    ensures Decode(0x00) == Some(Instruction(Brk, Stack))
    ensures Decode(0x40) == Some(Instruction(Rti, Stack))
  {
    hide Column1, Column2, Column4, Column5, Column6, Column7, Column8, Column9, ColumnA, ColumnB, ColumnC, ColumnD,
      ColumnE, ColumnF;
  }

  /** Pushes and pulls. */
  lemma PushPullEntries()
    ensures Decode(0x48) == Some(Instruction(Pha, Stack))
    ensures Decode(0x68) == Some(Instruction(Pla, Stack))
    ensures Decode(0xDA) == Some(Instruction(Phx, Stack))
    ensures Decode(0xFA) == Some(Instruction(Plx, Stack))
    ensures Decode(0x5A) == Some(Instruction(Phy, Stack))
    ensures Decode(0x7A) == Some(Instruction(Ply, Stack))
    ensures Decode(0x08) == Some(Instruction(Php, Stack))
    ensures Decode(0x28) == Some(Instruction(Plp, Stack))
  {
    hide Column0, Column1, Column2, Column4, Column5, Column6, Column7, Column9, ColumnB, ColumnC, ColumnD, ColumnE,
      ColumnF;
  }

  /** Transfers between registers. */
  lemma TransferEntries()
    ensures Decode(0xAA) == Some(Instruction(Tax, Implied))
    ensures Decode(0x8A) == Some(Instruction(Txa, Implied))
    ensures Decode(0xA8) == Some(Instruction(Tay, Implied))
    ensures Decode(0x98) == Some(Instruction(Tya, Implied))
    ensures Decode(0xBA) == Some(Instruction(Tsx, Implied))
    ensures Decode(0x9A) == Some(Instruction(Txs, Implied))
    ensures Decode(0xEA) == Some(Instruction(Nop, Implied))
  {
    hide Column0, Column1, Column2, Column4, Column5, Column6, Column7, Column9, ColumnB, ColumnC, ColumnD, ColumnE,
      ColumnF;
  }

  /** Counting in the registers. */
  lemma CountEntries()
    ensures Decode(0xE8) == Some(Instruction(Inx, Implied))
    ensures Decode(0xCA) == Some(Instruction(Dex, Implied))
    ensures Decode(0xC8) == Some(Instruction(Iny, Implied))
    ensures Decode(0x88) == Some(Instruction(Dey, Implied))
    ensures Decode(0x1A) == Some(Instruction(IncA, Accumulator))
    ensures Decode(0x3A) == Some(Instruction(DecA, Accumulator))
  {
    hide Column0, Column1, Column2, Column4, Column5, Column6, Column7, Column9, ColumnB, ColumnC, ColumnD, ColumnE,
      ColumnF;
  }

  /** Shifts and rotates of A. */
  lemma ShiftEntries()
    ensures Decode(0x0A) == Some(Instruction(AslA, Accumulator))
    ensures Decode(0x2A) == Some(Instruction(RolA, Accumulator))
    ensures Decode(0x4A) == Some(Instruction(LsrA, Accumulator))
    ensures Decode(0x6A) == Some(Instruction(RorA, Accumulator))
  {
    hide Column0, Column1, Column2, Column4, Column5, Column6, Column7, Column8, Column9, ColumnB, ColumnC, ColumnD,
      ColumnE, ColumnF;
  }

  /** The flag instructions. */
  lemma FlagEntries()
    ensures Decode(0x18) == Some(Instruction(SetFlag(Carry, false), Implied))
    ensures Decode(0x38) == Some(Instruction(SetFlag(Carry, true), Implied))
    ensures Decode(0x58) == Some(Instruction(SetFlag(InterruptDisable, false), Implied))
    ensures Decode(0x78) == Some(Instruction(SetFlag(InterruptDisable, true), Implied))
    ensures Decode(0xB8) == Some(Instruction(SetFlag(Overflow, false), Implied))
    ensures Decode(0xD8) == Some(Instruction(SetFlag(DecimalMode, false), Implied))
    ensures Decode(0xF8) == Some(Instruction(SetFlag(DecimalMode, true), Implied))
  {
    hide Column0, Column1, Column2, Column4, Column5, Column6, Column7, Column9, ColumnA, ColumnB, ColumnC, ColumnD,
      ColumnE, ColumnF;
  }

  /** Jumps, the unconditional branch, the breakpoint and the stop. */
  lemma JumpEntries()
    ensures Decode(0x4C) == Some(Instruction(Jmp, Absolute))
    ensures Decode(0x6C) == Some(Instruction(Jmp, AbsoluteIndirect))
    ensures Decode(0x7C) == Some(Instruction(Jmp, AbsoluteIndexedIndirect))
    ensures Decode(0x80) == Some(Instruction(Bra, PCRelative))
    ensures Decode(0x02) == Some(Instruction(Dbg, Implied))
    ensures Decode(0xDB) == Some(Instruction(Stp, Implied))
  {
    hide Column1, Column4, Column5, Column6, Column7, Column8, Column9, ColumnA, ColumnD, ColumnE, ColumnF;
  }

  /** Loads of X. */
  lemma LoadXEntries()
    ensures Decode(0xA2) == Some(Instruction(Ldx, Immediate))
    ensures Decode(0xA6) == Some(Instruction(Ldx, ZeroPage))
    ensures Decode(0xAE) == Some(Instruction(Ldx, Absolute))
    ensures Decode(0xB6) == Some(Instruction(Ldx, ZeroPageIndexedY))
    ensures Decode(0xBE) == Some(Instruction(Ldx, AbsoluteIndexedY))
  {
    hide Column0, Column1, Column4, Column5, Column7, Column8, Column9, ColumnA, ColumnB, ColumnC, ColumnD, ColumnF;
  }

  /** Loads of Y, and the LDA that sets no flags. */
  lemma LoadYEntries()
    ensures Decode(0xA0) == Some(Instruction(Ldy, Immediate))
    ensures Decode(0xA4) == Some(Instruction(Ldy, ZeroPage))
    ensures Decode(0xAC) == Some(Instruction(Ldy, Absolute))
    ensures Decode(0xB4) == Some(Instruction(Ldy, ZeroPageIndexedX))
    ensures Decode(0xBC) == Some(Instruction(Ldy, AbsoluteIndexedX))
    ensures Decode(0xAD) == Some(Instruction(LdaPlain, Absolute))
  {
    hide Column1, Column2, Column5, Column6, Column7, Column8, Column9, ColumnA, ColumnB, ColumnE, ColumnF;
  }

  /** Stores of X and Y. */
  lemma StoreEntries()
    ensures Decode(0x86) == Some(Instruction(Stx, ZeroPage))
    ensures Decode(0x8E) == Some(Instruction(Stx, Absolute))
    ensures Decode(0x96) == Some(Instruction(Stx, ZeroPageIndexedY))
    ensures Decode(0x84) == Some(Instruction(Sty, ZeroPage))
    ensures Decode(0x8C) == Some(Instruction(Sty, Absolute))
    ensures Decode(0x94) == Some(Instruction(Sty, ZeroPageIndexedX))
  {
    hide Column0, Column1, Column2, Column5, Column7, Column8, Column9, ColumnA, ColumnB, ColumnD, ColumnF;
  }

  /** Stores of zero. */
  lemma StoreZeroEntries()
    ensures Decode(0x64) == Some(Instruction(Stz, ZeroPage))
    ensures Decode(0x74) == Some(Instruction(Stz, ZeroPageIndexedX))
    ensures Decode(0x9C) == Some(Instruction(Stz, Absolute))
    ensures Decode(0x9E) == Some(Instruction(Stz, AbsoluteIndexedX))
  {
    hide Column0, Column1, Column2, Column5, Column6, Column7, Column8, Column9, ColumnA, ColumnB, ColumnD, ColumnF;
  }

  /** Compares with X and Y. */
  lemma CompareEntries()
    ensures Decode(0xE0) == Some(Instruction(CpxLow, Immediate))
    ensures Decode(0xE4) == Some(Instruction(Cpx, ZeroPage))
    ensures Decode(0xEC) == Some(Instruction(Cpx, Absolute))
    ensures Decode(0xC0) == Some(Instruction(CpyLow, Immediate))
    ensures Decode(0xC4) == Some(Instruction(Cpy, ZeroPage))
    ensures Decode(0xCC) == Some(Instruction(Cpy, Absolute))
  {
    hide Column1, Column2, Column5, Column6, Column7, Column8, Column9, ColumnA, ColumnB, ColumnD, ColumnE, ColumnF;
  }

  /** Tests and changes of bits under the mask in A. */
  lemma BitEntries()
    ensures Decode(0x24) == Some(Instruction(BitLoad, ZeroPage))
    ensures Decode(0x34) == Some(Instruction(BitLoad, ZeroPageIndexedX))
    ensures Decode(0x2C) == Some(Instruction(BitTest, Absolute))
    ensures Decode(0x3C) == Some(Instruction(BitTest, AbsoluteIndexedX))
    ensures Decode(0x89) == Some(Instruction(BitTest, Immediate))
    ensures Decode(0x04) == Some(Instruction(Tsb, ZeroPage))
    ensures Decode(0x0C) == Some(Instruction(Tsb, Absolute))
    ensures Decode(0x14) == Some(Instruction(Trb, ZeroPage))
    ensures Decode(0x1C) == Some(Instruction(Trb, Absolute))
  {
    hide Column0, Column1, Column2, Column5, Column6, Column7, Column8, ColumnA, ColumnB, ColumnD, ColumnE, ColumnF;
  }

  /** Instructions on A ending in 2: zero page as coded, but for CMP and SBC. */
  lemma Column2Entries()
    ensures Decode(0x12) == Some(Instruction(Ora, ZeroPage))
    ensures Decode(0x32) == Some(Instruction(And, ZeroPage))
    ensures Decode(0x52) == Some(Instruction(Eor, ZeroPage))
    ensures Decode(0x72) == Some(Instruction(Adc, ZeroPage))
    ensures Decode(0x92) == Some(Instruction(Sta, ZeroPage))
    ensures Decode(0xB2) == Some(Instruction(Lda, ZeroPage))
    ensures Decode(0xD2) == Some(Instruction(CmpBorrow, ZeroPageIndirect))
    ensures Decode(0xF2) == Some(Instruction(Sbc, ZeroPageIndirect))
  {
    hide Column0, Column1, Column4, Column5, Column6, Column7, Column8, Column9, ColumnA, ColumnB, ColumnC, ColumnD,
      ColumnE, ColumnF;
  }

  lemma UnlistedSome(opcode: byte)
    requires opcode % 16 in {2, 4, 12}
    ensures Decode(opcode) == None
            <==> opcode in {0x22, 0x42, 0x62, 0x82, 0xC2, 0xE2, 0x44, 0x54, 0xD4, 0xF4, 0x5C, 0xDC, 0xFC}
  {
    hide Column0, Column1, Column5, Column6, Column7, Column8, Column9, ColumnA, ColumnB, ColumnD, ColumnE, ColumnF;
  }

  lemma UnlistedNone(opcode: byte)
    requires opcode % 16 in {0, 6, 8, 10, 14}
    ensures Decode(opcode).Some?
  {
    hide Column1, Column2, Column4, Column5, Column7, Column9, ColumnB, ColumnC, ColumnD, ColumnF;
  }

  lemma UnlistedOdd(opcode: byte)
    requires opcode % 16 in {3, 11}
    ensures Decode(opcode) == None <==> opcode != 0xDB
  {
    hide Column0, Column1, Column2, Column4, Column5, Column6, Column7, Column8, Column9, ColumnA, ColumnC, ColumnD,
      ColumnE, ColumnF;
  }

  lemma UnlistedNoOdd(opcode: byte)
    requires opcode % 16 in {1, 5, 7, 9, 13, 15}
    ensures Decode(opcode).Some?
  {
    hide Column0, Column2, Column4, Column6, Column8, ColumnA, ColumnB, ColumnC, ColumnE;
  }

  /** What the table does not list: the 44 opcodes the loop passes over. */
  lemma UnlistedOpcodes(opcode: byte)
    ensures Decode(opcode) == None
            <==> opcode % 16 == 3 || (opcode % 16 == 11 && opcode != 0xDB)
                 || opcode in {0x22, 0x42, 0x62, 0x82, 0xC2, 0xE2, 0x44, 0x54, 0xD4, 0xF4, 0x5C, 0xDC, 0xFC}
  {
    hide Decode;
    if opcode % 16 in {2, 4, 12} {
      UnlistedSome(opcode);
    } else if opcode % 2 == 0 {
      UnlistedNone(opcode);
    } else if opcode % 16 in {3, 11} {
      UnlistedOdd(opcode);
    } else {
      UnlistedNoOdd(opcode);
    }
  }

  /** Only 0x02 is the breakpoint. */
  lemma OnlyBreakpoint(opcode: byte)
    ensures Decode(opcode).Some? && Decode(opcode).value.op == Dbg <==> opcode == 0x02
  {
  }
}
