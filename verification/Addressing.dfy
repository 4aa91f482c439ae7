/** Which memory cells a step reads to find its operand, and when one of them lies past
    the end of memory (6502cpu.cpp). */
module Addressing {
  import opened Bytes
  import opened InstructionSet
  import opened MachineModel

  /** Where the bytes after the opcode lie. */
  function First(m: Machine): word {
    (m.pc + 1) % 0x1_0000
  }

  function Second(m: Machine): word {
    (m.pc + 2) % 0x1_0000
  }

  /** The memory indices read while resolving an operand, in order. Only the pointer of
      the indirect JMP is followed without wrapping to 16 bits. */
  function Reads(m: Machine, mode: AddressingMode): seq<int> {
    match mode
    case Absolute | AbsoluteIndexedX | AbsoluteIndexedY => [First(m), Second(m)]
    case AbsoluteIndexedIndirect =>
      var pointer := (Operand16(m) + m.x) % 0x1_0000;
      [First(m), Second(m), pointer, (pointer + 1) % 0x1_0000]
    case AbsoluteIndirect => [First(m), Second(m), Operand16(m), Operand16(m) + 1]
    case Accumulator | Immediate | Implied | Stack => []
    case PCRelative | ZeroPage | ZeroPageIndexedX | ZeroPageIndexedY => [First(m)]
    case ZeroPageIndexedIndirect =>
      var pointer := (Operand8(m) + m.x) % 0x100;
      [First(m), pointer, pointer + 1]
    case ZeroPageIndirect | ZeroPageIndirectIndexedY => [First(m), Operand8(m), Operand8(m) + 1]
  }

  /** A mode that follows a pointer. */
  predicate FollowsPointer(mode: AddressingMode) {
    mode in {AbsoluteIndexedIndirect, AbsoluteIndirect, ZeroPageIndexedIndirect, ZeroPageIndirect,
             ZeroPageIndirectIndexedY}
  }

  /** Its pointer is named by two operand bytes. */
  predicate WidePointer(mode: AddressingMode) {
    mode == AbsoluteIndexedIndirect || mode == AbsoluteIndirect
  }

  predicate SameRegisters(m: Machine, n: Machine) {
    m.pc == n.pc && m.a == n.a && m.x == n.x && m.y == n.y && m.s == n.s
  }

  /** Two machines agree on every listed index that lies inside memory. */
  predicate AgreeOn(m: Machine, n: Machine, indices: seq<int>) {
    forall i | 0 <= i < |indices| && 0 <= indices[i] < MEMORY_SIZE :: m.mem[indices[i]] == n.mem[indices[i]]
  }

  lemma OperandBytes(m: Machine, n: Machine)
    requires m.pc == n.pc
    ensures First(n) == First(m) && Second(n) == Second(m)
    ensures m.mem[First(m)] == n.mem[First(m)] ==>
              && Operand8(n) == Operand8(m)
              && (m.mem[Second(m)] == n.mem[Second(m)] ==> Operand16(n) == Operand16(m))
  {
  }

  lemma PointedWord(m: Machine, n: Machine, pointer: word)
    requires m.mem[pointer] == n.mem[pointer]
    ensures pointer < 0xFFFF && m.mem[pointer + 1] == n.mem[pointer + 1] ==> Word(n, pointer) == Word(m, pointer)
    ensures var second := (pointer + 1) % 0x1_0000;
            m.mem[second] == n.mem[second] ==> Word(n, pointer) == Word(m, pointer)
  {
  }

  /** The registers and the first `i` cells listed decide which cell is read next, and
      all of them decide the operand. */
  predicate Decides(m: Machine, n: Machine, mode: AddressingMode, i: nat) {
    && |Reads(n, mode)| == |Reads(m, mode)|
    && (forall j | 0 <= j <= i && j < |Reads(m, mode)| :: Reads(n, mode)[j] == Reads(m, mode)[j])
    && (i == |Reads(m, mode)| ==> Resolve(n, mode) == Resolve(m, mode))
  }

  lemma DirectDecides(m: Machine, n: Machine, mode: AddressingMode, i: nat)
    requires SameRegisters(m, n) && !FollowsPointer(mode)
    requires i <= |Reads(m, mode)| && AgreeOn(m, n, Reads(m, mode)[..i])
    ensures Decides(m, n, mode, i)
  {
    hide First, Second, Operand8, Operand16, Signed, Word;
    OperandBytes(m, n);
    assert i > 0 ==> Reads(m, mode)[..i][0] == First(m);
    assert i > 1 ==> Reads(m, mode)[..i][1] == Second(m);
  }

  lemma NarrowDecides(m: Machine, n: Machine, mode: AddressingMode, i: nat)
    requires SameRegisters(m, n) && FollowsPointer(mode) && !WidePointer(mode)
    requires i <= 3 && AgreeOn(m, n, Reads(m, mode)[..i])
    ensures Decides(m, n, mode, i)
  {
    hide First, Second, Operand8, Operand16, Word;
    OperandBytes(m, n);
    var pointer := Reads(m, mode)[1];
    assert i > 0 ==> Reads(m, mode)[..i][0] == First(m);
    assert i > 2 ==> Reads(m, mode)[..i][2] == pointer + 1;
    if i > 1 {
      assert Reads(m, mode)[..i][1] == pointer;
      PointedWord(m, n, pointer);
    }
  }

  lemma WideDecides(m: Machine, n: Machine, mode: AddressingMode, i: nat)
    requires SameRegisters(m, n) && WidePointer(mode)
    requires i <= 4 && AgreeOn(m, n, Reads(m, mode)[..i])
    ensures Decides(m, n, mode, i)
  {
    hide First, Second, Operand8, Operand16, Word;
    OperandBytes(m, n);
    var pointer := Reads(m, mode)[2];
    assert i > 0 ==> Reads(m, mode)[..i][0] == First(m);
    assert i > 1 ==> Reads(m, mode)[..i][1] == Second(m);
    assert i > 3 ==> Reads(m, mode)[..i][3] == Reads(m, mode)[3];
    if i > 2 {
      assert Reads(m, mode)[..i][2] == pointer;
      PointedWord(m, n, pointer);
    }
  }

  /** The list is enough, cell by cell. */
  lemma ReadsSuffice(m: Machine, n: Machine, mode: AddressingMode, i: nat)
    requires SameRegisters(m, n) && i <= |Reads(m, mode)| && AgreeOn(m, n, Reads(m, mode)[..i])
    ensures Decides(m, n, mode, i)
  {
    hide Operand8, Operand16, Decides;
    if !FollowsPointer(mode) {
      DirectDecides(m, n, mode, i);
    } else if !WidePointer(mode) {
      NarrowDecides(m, n, mode, i);
    } else {
      WideDecides(m, n, mode, i);
    }
  }

  // ---------------------------------------------------------------- every listed cell is needed

  /** The machine with this byte in one cell. */
  function With(m: Machine, a: word, v: byte): Machine {
    m.(mem := m.mem[a := v])
  }

  /** The machine with memory cleared but for the operand bytes and a 1 in one cell. */
  function Cleared(m: Machine, low: byte, high: byte, marked: word): Machine {
    m.(mem := seq(0x1_0000, _ => 0)[marked := 1][First(m) := low][Second(m) := high])
  }

  lemma ClearedCells(m: Machine, low: byte, high: byte, marked: word)
    ensures var n := Cleared(m, low, high, marked);
            && SameRegisters(m, n)
            && n.mem[First(m)] == low && n.mem[Second(m)] == high
            && Operand8(n) == low && Operand16(n) == low + 0x100 * high
            && forall a: word :: a != First(m) && a != Second(m) ==> n.mem[a] == if a == marked then 1 else 0
  {
  }

  /** Two pointers apart from each other and from the operand bytes. */
  predicate PointersApart(m: Machine, p: word, q: word) {
    var next := (p + 1) % 0x1_0000;
    && p != q && next != q
    && p != First(m) && q != First(m) && next != First(m)
    && p != Second(m) && q != Second(m) && next != Second(m)
  }

  /** With only the second cell marked, the words there differ. */
  lemma ClearedWords(m: Machine, low: byte, high: byte, p: word, q: word)
    requires PointersApart(m, p, q)
    ensures Word(Cleared(m, low, high, q), p) == 0 && Word(Cleared(m, low, high, q), q) != 0
  {
    hide First, Second, Cleared;
    ClearedCells(m, low, high, q);
  }

  /** Where the pointer lies that these operand bytes name. */
  function Pointer(m: Machine, mode: AddressingMode, low: byte, high: byte): word
    requires FollowsPointer(mode)
  {
    match mode
    case AbsoluteIndexedIndirect => (low + 0x100 * high + m.x) % 0x1_0000
    case AbsoluteIndirect => low + 0x100 * high
    case ZeroPageIndexedIndirect => (low + m.x) % 0x100
    case _ => low
  }

  /** Operand bytes that lead to different pointers, away from the code, can lead to
      different operands. */
  lemma PointersMatter(m: Machine, mode: AddressingMode, low1: byte, high1: byte, low2: byte, high2: byte)
    requires FollowsPointer(mode)
    requires PointersApart(m, Pointer(m, mode, low1, high1), Pointer(m, mode, low2, high2))
    ensures var marked := Pointer(m, mode, low2, high2);
            Resolve(Cleared(m, low1, high1, marked), mode) != Resolve(Cleared(m, low2, high2, marked), mode)
  {
    hide First, Second, Cleared, Word, PointersApart;
    var p, q := Pointer(m, mode, low1, high1), Pointer(m, mode, low2, high2);
    ClearedCells(m, low1, high1, q);
    ClearedCells(m, low2, high2, q);
    ClearedWords(m, low1, high1, p, q);
    ClearedWords(m, low2, high2, p, q);
  }

  /** The low byte whose zero-page pointer is `cell`. */
  function LowFor(m: Machine, mode: AddressingMode, cell: byte): byte {
    if mode != ZeroPageIndexedIndirect then cell else if cell < m.x then cell + 0x100 - m.x else cell - m.x
  }

  lemma LowForPointer(m: Machine, mode: AddressingMode, cell: byte)
    requires FollowsPointer(mode) && !WidePointer(mode)
    ensures Pointer(m, mode, LowFor(m, mode, cell), 0) == cell
  {
  }

  /** Two zero-page pointers that are apart: at one end of the page or in its middle,
      wherever the code is not. */
  lemma NarrowApart(m: Machine, mode: AddressingMode)
    requires FollowsPointer(mode) && !WidePointer(mode)
    ensures var cell := if 0x40 <= First(m) < 0xC0 then 0 else 0x50;
            && LowFor(m, mode, cell) != LowFor(m, mode, cell + 2)
            && PointersApart(m, Pointer(m, mode, LowFor(m, mode, cell), 0),
                             Pointer(m, mode, LowFor(m, mode, cell + 2), 0))
  {
    hide Pointer, LowFor;
    var cell := if 0x40 <= First(m) < 0xC0 then 0 else 0x50;
    LowForPointer(m, mode, cell);
    LowForPointer(m, mode, cell + 2);
  }

  /** The high byte of an address `pages` pages on. */
  function PagesOn(a: word, pages: byte): byte {
    if a / 0x100 + pages < 0x100 then a / 0x100 + pages else a / 0x100 + pages - 0x100
  }

  /** How far up from the start of the code's page a cell lies, going round at the top of
      memory. */
  function Distance(m: Machine, a: word): word {
    var page := m.pc / 0x100 * 0x100;
    if a < page then a - page + 0x1_0000 else a - page
  }

  lemma CodeDistance(m: Machine)
    ensures 1 <= Distance(m, First(m)) <= 0x100 && 2 <= Distance(m, Second(m)) <= 0x101
  {
  }

  lemma NextDistance(m: Machine, a: word)
    requires Distance(m, a) < 0xFFFF
    ensures Distance(m, (a + 1) % 0x1_0000) == Distance(m, a) + 1
  {
  }

  lemma PointerDistance(m: Machine, mode: AddressingMode, low: byte, pages: byte)
    requires WidePointer(mode) && pages <= 0x80
    ensures Distance(m, Pointer(m, mode, low, PagesOn(m.pc, pages)))
            == 0x100 * pages + low + if mode == AbsoluteIndirect then 0 else m.x
  {
  }

  /** Operand bytes half the memory away and two apart lead to pointers apart, and so do
      any that share a low byte at half and a quarter of the memory away. */
  lemma WideApart(m: Machine, mode: AddressingMode, low: byte)
    requires WidePointer(mode)
    ensures var half := PagesOn(m.pc, 0x80);
            PointersApart(m, Pointer(m, mode, 0, half), Pointer(m, mode, 2, half))
    ensures var half, quarter := PagesOn(m.pc, 0x80), PagesOn(m.pc, 0x40);
            half != quarter && PointersApart(m, Pointer(m, mode, low, half), Pointer(m, mode, low, quarter))
  {
    hide Pointer, Distance, First, Second, PagesOn;
    CodeDistance(m);
    PointerDistance(m, mode, 0, 0x80);
    PointerDistance(m, mode, 2, 0x80);
    PointerDistance(m, mode, low, 0x80);
    PointerDistance(m, mode, low, 0x40);
    NextDistance(m, Pointer(m, mode, 0, PagesOn(m.pc, 0x80)));
    NextDistance(m, Pointer(m, mode, low, PagesOn(m.pc, 0x80)));
  }

  /** An operand byte of a mode that follows a pointer. */
  lemma OperandByteNeeded(m: Machine, mode: AddressingMode, i: nat) returns (n1: Machine, n2: Machine)
    requires FollowsPointer(mode) && i < if WidePointer(mode) then 2 else 1
    ensures SameRegisters(m, n1) && SameRegisters(m, n2) && Resolve(n1, mode) != Resolve(n2, mode)
    ensures i == 1 ==> n1.mem[First(m)] == n2.mem[First(m)] == m.mem[First(m)]
    ensures var a := if i == 0 then First(m) else Second(m); n2.mem == n1.mem[a := n2.mem[a]]
  {
    hide Resolve, Pointer, PointersApart, LowFor, PagesOn;
    if !WidePointer(mode) {
      NarrowApart(m, mode);
      var cell := if 0x40 <= First(m) < 0xC0 then 0 else 0x50;
      var low1, low2 := LowFor(m, mode, cell), LowFor(m, mode, cell + 2);
      n1 := Cleared(m, low1, 0, Pointer(m, mode, low2, 0));
      n2 := Cleared(m, low2, 0, Pointer(m, mode, low2, 0));
      PointersMatter(m, mode, low1, 0, low2, 0);
    } else {
      var low := m.mem[First(m)];
      var half, quarter := PagesOn(m.pc, 0x80), PagesOn(m.pc, 0x40);
      WideApart(m, mode, low);
      if i == 0 {
        n1 := Cleared(m, 0, half, Pointer(m, mode, 2, half));
        n2 := Cleared(m, 2, half, Pointer(m, mode, 2, half));
        PointersMatter(m, mode, 0, half, 2, half);
      } else {
        n1 := Cleared(m, low, half, Pointer(m, mode, low, quarter));
        n2 := Cleared(m, low, quarter, Pointer(m, mode, low, quarter));
        PointersMatter(m, mode, low, half, low, quarter);
      }
    }
  }

  lemma OperandsWith(m: Machine, v: byte)
    ensures Operand8(With(m, First(m), v)) == v
    ensures Operand16(With(m, First(m), v)) == v + 0x100 * m.mem[Second(m)] as int
    ensures Operand16(With(m, Second(m), v)) == m.mem[First(m)] as int + 0x100 * v
  {
  }

  /** An operand byte of a mode that follows no pointer. */
  lemma DirectByteNeeded(m: Machine, mode: AddressingMode, i: nat)
    requires i < |Reads(m, mode)| && !FollowsPointer(mode)
    ensures var a := if i == 0 then First(m) else Second(m);
            Reads(m, mode)[i] == a && Resolve(With(m, a, 0), mode) != Resolve(With(m, a, 1), mode)
  {
    hide First, Second, Operand8, Operand16;
    OperandsWith(m, 0);
    OperandsWith(m, 1);
  }

  lemma WordWith(m: Machine, pointer: word, v: byte)
    ensures Word(With(m, pointer, v), pointer) % 0x100 == v
    ensures Word(With(m, (pointer + 1) % 0x1_0000, v), pointer) / 0x100 == v
  {
  }

  lemma OperandKept(m: Machine, a: word, v: byte)
    requires a != First(m)
    ensures Operand8(With(m, a, v)) == Operand8(m)
    ensures a != Second(m) ==> Operand16(With(m, a, v)) == Operand16(m)
  {
  }

  /** A byte of the word pointed at. */
  lemma PointedByteNeeded(m: Machine, mode: AddressingMode, i: nat)
    requires FollowsPointer(mode) && i < |Reads(m, mode)| && i >= if WidePointer(mode) then 2 else 1
    requires Resolve(m, mode) != Beyond
    requires Reads(m, mode)[i] !in Reads(m, mode)[..i]
    ensures 0 <= Reads(m, mode)[i] < MEMORY_SIZE
    ensures var a := Reads(m, mode)[i]; Resolve(With(m, a, 0), mode) != Resolve(With(m, a, 1), mode)
  {
    hide First, Second, Operand8, Operand16, Word;
    var a := Reads(m, mode)[i];
    assert First(m) == Reads(m, mode)[..i][0];
    assert WidePointer(mode) ==> Second(m) == Reads(m, mode)[..i][1];
    var pointer := Reads(m, mode)[if WidePointer(mode) then 2 else 1];
    OperandKept(m, a, 0);
    OperandKept(m, a, 1);
    WordWith(m, pointer, 0);
    WordWith(m, pointer, 1);
  }

  /** The list is not longer than need be. Even knowing the registers and the cells read
      before it, the operand can depend on the `i`-th cell listed: two memories that agree
      on the earlier cells and differ in that one alone resolve differently. A cell listed
      twice is known the second time. */
  lemma ReadsNeeded(m: Machine, mode: AddressingMode, i: nat) returns (n1: Machine, n2: Machine)
    requires i < |Reads(m, mode)| && Resolve(m, mode) != Beyond
    requires Reads(m, mode)[i] !in Reads(m, mode)[..i]
    ensures 0 <= Reads(m, mode)[i] < MEMORY_SIZE
    ensures SameRegisters(m, n1) && AgreeOn(m, n1, Reads(m, mode)[..i])
    ensures SameRegisters(m, n2) && AgreeOn(m, n2, Reads(m, mode)[..i])
    ensures n2.mem == n1.mem[Reads(m, mode)[i] := n2.mem[Reads(m, mode)[i]]]
    ensures Resolve(n1, mode) != Resolve(n2, mode)
  {
    hide First, Second, Resolve, Operand8, Operand16;
    var indices := Reads(m, mode);
    if FollowsPointer(mode) && i < if WidePointer(mode) then 2 else 1 {
      n1, n2 := OperandByteNeeded(m, mode, i);
    } else {
      if FollowsPointer(mode) {
        PointedByteNeeded(m, mode, i);
      } else {
        DirectByteNeeded(m, mode, i);
      }
      n1, n2 := With(m, indices[i], 0), With(m, indices[i], 1);
      forall j | 0 <= j < i
        ensures indices[..i][j] != indices[i]
      {
      }
    }
  }

  /** Every index read is inside memory exactly when the operand resolves, and only an
      indirect pointer of 0xFFFF keeps it from resolving. */
  lemma ReadsInside(m: Machine, mode: AddressingMode)
    ensures (forall i | 0 <= i < |Reads(m, mode)| :: 0 <= Reads(m, mode)[i] < MEMORY_SIZE)
            <==> Resolve(m, mode) != Beyond
    ensures Resolve(m, mode) == Beyond <==> mode == AbsoluteIndirect && Operand16(m) == 0xFFFF
  {
    hide Word, Pair;
    var indices := Reads(m, mode);
    if mode == AbsoluteIndirect {
      assert indices[3] == Operand16(m) + 1;
    }
  }

  /** With the simulator's table, the only undefined step is an indirect JMP through 0xFFFF. */
  lemma OnlyJmpFaults(m: Machine)
    requires m.isa == Isa()
    ensures Step(m).err == OutOfRange <==> m.mem[m.pc] == 0x6C && Operand16(m) == 0xFFFF
  {
    hide Decode, Isa, Exec, Operand16;
    var opcode := m.mem[m.pc];
    OnlyIndirectJmp(opcode);
    if Ready(m) {
      NeverFaults(m, Fetched(m).op, Address(m));
    }
  }

  lemma NeverFaults(m: Machine, op: Operation, addr: word)
    ensures Exec(m, op, addr).err != OutOfRange
  {
    hide Calculate, Shift, Move;
  }
}
