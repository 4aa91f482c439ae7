/** What every operation does, said of the machine before and after it and not of the
    functions that compute it (6502isa.cpp): where its one result goes, what N and Z say
    about that result, and what the result is. */
module OperationLaws {
  import opened Bytes
  import opened Status
  import opened Alu
  import opened InstructionSet
  import opened MachineModel

  // ---------------------------------------------------------------- one result

  datatype Place = InA | InX | InY | InS | InCell | Nowhere

  /** Where an operation leaves its result. Compares, tests, jumps, pushes and flag
      operations have none. */
  function Target(op: Operation): Place {
    match op
    case Adc | Sbc | And | Ora | Eor | AslA | LsrA | RolA | RorA | IncA | DecA | Lda | LdaPlain | Pla | Txa | Tya => InA
    case Inx | Dex | Ldx | Plx | Tax | Tsx => InX
    case Iny | Dey | Ldy | Ply | Tay => InY
    case Txs => InS
    case Asl | Lsr | Rol | Ror | Inc | Dec | Sta | Stx | Sty | Stz | Tsb | Trb | Rmb(_) | Smb(_) => InCell
    case _ => Nowhere
  }

  function ValueAt(m: Machine, place: Place, addr: word): byte {
    match place
    case InA => m.a
    case InX => m.x
    case InY => m.y
    case InS => m.s
    case InCell => m.mem[addr]
    case Nowhere => 0
  }

  /** Nothing but the result's place has changed. */
  predicate OnlyAt(m: Machine, after: Machine, place: Place, addr: word) {
    && (place != InA ==> after.a == m.a)
    && (place != InX ==> after.x == m.x)
    && (place != InY ==> after.y == m.y)
    && (place != InS ==> after.s == m.s)
    && after.mem == if place == InCell then m.mem[addr := after.mem[addr]] else m.mem
  }

  /** What the setters leave alone. */
  lemma SettersOnlyAt(addr: word)
    ensures forall m: Machine, v: byte :: OnlyAt(m, SetA(m, v), InA, addr)
    ensures forall m: Machine, v: byte :: OnlyAt(m, SetX(m, v), InX, addr)
    ensures forall m: Machine, v: byte :: OnlyAt(m, SetY(m, v), InY, addr)
    ensures forall m: Machine, r: Sum :: OnlyAt(m, SetAlu(m, r), InA, addr)
    ensures forall m: Machine, v: byte :: OnlyAt(m, Store(m, addr, v), InCell, addr)
    ensures forall m: Machine, v: byte :: OnlyAt(m, Write(m, addr, v), InCell, addr)
    ensures forall m: Machine, c: bool :: OnlyAt(m, WithCarry(m, c), Nowhere, addr)
  {
    hide Flags.OfValue;
  }

  lemma CalculateOnlyAt(m: Machine, op: Operation, addr: word)
    requires op.Group() == Arithmetic
    ensures OnlyAt(m, Calculate(m, op, addr), Target(op), addr)
  {
    hide Adc8, Sbc8, BitAnd, BitOr, BitXor, Bit, Low, Flags.OfValue, SetA, SetX, SetY, SetAlu, WithCarry;
    SettersOnlyAt(addr);
  }

  lemma ShiftOnlyAt(m: Machine, op: Operation, addr: word)
    requires op.Group() == Shifting
    ensures OnlyAt(m, Shift(m, op, addr), Target(op), addr)
  {
    hide Rol8, Ror8;
  }

  lemma MoveOnlyAt(m: Machine, op: Operation, addr: word)
    requires op.Group() == Data
    ensures OnlyAt(m, Move(m, op, addr), Target(op), addr)
  {
    hide BitAnd, BitOr, BitNot, Mask;
  }

  lemma DirectOnlyAt(m: Machine, op: Operation, addr: word)
    requires op.Group() == Control
    ensures OnlyAt(m, Direct(m, op, addr).m, Target(op), addr)
  {
    hide Bit, Flags.Get, Flags.Set;
  }

  /** The registers a stack operation leaves alone. */
  lemma StackOnlyAt(m: Machine, op: Operation, addr: word)
    requires op.Group() == Stacking
    ensures var after := UseStack(m, op, addr).m;
            && (Target(op) != InA ==> after.a == m.a)
            && (Target(op) != InX ==> after.x == m.x)
            && (Target(op) != InY ==> after.y == m.y)
  {
    hide Pack, Unpack, Pair, High, Low, Up, Down;
  }

  /** An operation changes one register or one cell, the stack apart. */
  lemma OneResult(m: Machine, op: Operation, addr: word)
    ensures op.Group() != Stacking ==> OnlyAt(m, Exec(m, op, addr).m, Target(op), addr)
    ensures var after := Exec(m, op, addr).m;
            && (Target(op) != InA ==> after.a == m.a)
            && (Target(op) != InX ==> after.x == m.x)
            && (Target(op) != InY ==> after.y == m.y)
  {
    hide Calculate, Shift, Move, UseStack, Direct, Target;
    match op.Group() {
      case Arithmetic => CalculateOnlyAt(m, op, addr);
      case Shifting => ShiftOnlyAt(m, op, addr);
      case Data => MoveOnlyAt(m, op, addr);
      case Stacking => StackOnlyAt(m, op, addr);
      case Control => DirectOnlyAt(m, op, addr);
    }
  }

  // ---------------------------------------------------------------- flags

  /** The flags `q` after an operation that left the result `v`, against those before. N
      and Z describe the result wherever an operation sets them from it; a flag not named
      is kept. */
  predicate FlagsFollow(p: Flags, q: Flags, op: Operation, v: byte) {
    match op
    case And | Ora | Eor | Dex | Inc | IncA | Dec | DecA | Lda | Ldx | Ldy => q == p.(z := v == 0, n := v >= 0x80)
    case Inx | Iny | Dey | Asl | AslA | Rol | RolA | Ror | RorA => q == p.(c := q.c, z := v == 0, n := v >= 0x80)
    case Adc | Sbc => q == p.(c := q.c, v := q.v, z := v == 0, n := v >= 0x80)
    case Lsr | LsrA => q == p.(c := q.c, n := false)
    case Cmp | CmpBorrow | Cpx | CpxLow | Cpy | CpyLow => q == p.(c := q.c, z := q.z, n := q.n)
    case BitLoad => q == p.(z := q.z, v := q.v, n := q.n)
    case BitTest => q == p.(z := q.z, n := q.n)
    case Tsb | Trb => q == p.(z := q.z)
    case Brk => q == p.(b := true)
    case Plp | Rti | SetFlag(_, _) => true
    case _ => q == p
  }

  predicate IsCompare(op: Operation) {
    match op
    case Cmp | CmpBorrow | Cpx | CpxLow | Cpy | CpyLow => true
    case _ => false
  }

  lemma CompareFlags(m: Machine, op: Operation, addr: word)
    requires IsCompare(op)
    ensures var after := Calculate(m, op, addr); FlagsFollow(m.p, after.p, op, ValueAt(after, Target(op), addr))
  {
    hide SetA, SetX, SetY, SetAlu, WithCarry, Adc8, Sbc8, BitAnd, BitOr, BitXor, Bit, Low, Flags.OfValue;
  }

  lemma ComputeFlags(m: Machine, op: Operation, addr: word)
    requires op.Group() == Arithmetic && !IsCompare(op)
    ensures var after := Calculate(m, op, addr); FlagsFollow(m.p, after.p, op, ValueAt(after, Target(op), addr))
  {
    hide Compare, CompareBorrow, Adc8, Sbc8, BitAnd, BitOr, BitXor, Bit, Low;
  }

  lemma CalculateFlags(m: Machine, op: Operation, addr: word)
    requires op.Group() == Arithmetic
    ensures var after := Calculate(m, op, addr); FlagsFollow(m.p, after.p, op, ValueAt(after, Target(op), addr))
  {
    hide Calculate, FlagsFollow;
    if IsCompare(op) {
      CompareFlags(m, op, addr);
    } else {
      ComputeFlags(m, op, addr);
    }
  }

  lemma ShiftAFlags(m: Machine, op: Operation, addr: word)
    requires op.Group() == Shifting && Target(op) == InA
    ensures var after := Shift(m, op, addr); FlagsFollow(m.p, after.p, op, ValueAt(after, Target(op), addr))
  {
    hide Rol8, Ror8, Store, Write;
  }

  lemma ShiftCellFlags(m: Machine, op: Operation, addr: word)
    requires op.Group() == Shifting && Target(op) == InCell
    ensures var after := Shift(m, op, addr); FlagsFollow(m.p, after.p, op, ValueAt(after, Target(op), addr))
  {
    hide Rol8, Ror8, SetA;
  }

  lemma ShiftFlags(m: Machine, op: Operation, addr: word)
    requires op.Group() == Shifting
    ensures var after := Shift(m, op, addr); FlagsFollow(m.p, after.p, op, ValueAt(after, Target(op), addr))
  {
    hide Shift, FlagsFollow;
    if Target(op) == InA {
      ShiftAFlags(m, op, addr);
    } else {
      ShiftCellFlags(m, op, addr);
    }
  }

  lemma MoveFlags(m: Machine, op: Operation, addr: word)
    requires op.Group() == Data
    ensures var after := Move(m, op, addr); FlagsFollow(m.p, after.p, op, ValueAt(after, Target(op), addr))
  {
    hide BitAnd, BitOr, BitNot, Mask;
  }

  lemma UseStackFlags(m: Machine, op: Operation, addr: word)
    requires op.Group() == Stacking
    ensures var after := UseStack(m, op, addr).m; FlagsFollow(m.p, after.p, op, ValueAt(after, Target(op), addr))
  {
    hide Pack, Unpack, Pair, High, Low, Up, Down;
  }

  lemma DirectFlags(m: Machine, op: Operation, addr: word)
    requires op.Group() == Control
    ensures var after := Direct(m, op, addr).m; FlagsFollow(m.p, after.p, op, ValueAt(after, Target(op), addr))
  {
    hide Bit, Flags.Get, Flags.Set;
  }

  /** The flags after every operation. */
  lemma ResultFlags(m: Machine, op: Operation, addr: word)
    ensures var after := Exec(m, op, addr).m; FlagsFollow(m.p, after.p, op, ValueAt(after, Target(op), addr))
  {
    hide Calculate, Shift, Move, UseStack, Direct, FlagsFollow, Target;
    match op.Group() {
      case Arithmetic => CalculateFlags(m, op, addr);
      case Shifting => ShiftFlags(m, op, addr);
      case Data => MoveFlags(m, op, addr);
      case Stacking => UseStackFlags(m, op, addr);
      case Control => DirectFlags(m, op, addr);
    }
  }

  // ---------------------------------------------------------------- arithmetic

  lemma SumEquations(m: Machine, op: Operation, addr: word)
    requires op == Adc || op == Sbc
    ensures var after := Calculate(m, op, addr);
            var operand: int := m.mem[addr];
            if op == Adc then after.a + 0x100 * Num(after.p.c) == m.a + operand + Num(m.p.c)
            else after.a - 0x100 * Num(!after.p.c) == m.a - operand - Num(!m.p.c)
  {
    hide Adc8, Sbc8, Num;
    ByteAdded(m.a, m.mem[addr], m.p.c);
    ByteSubtracted(m.a, m.mem[addr], m.p.c);
  }

  /** A shift is a rotate of some carry, at its target. */
  lemma ShiftIsRotate(m: Machine, op: Operation, addr: word)
    requires op.Group() == Shifting
    ensures var after := Shift(m, op, addr);
            var before := ValueAt(m, Target(op), addr);
            var moved := Shifted(ValueAt(after, Target(op), addr), after.p.c);
            match op
            case Asl | AslA => moved == Rol8(before, false)
            case Rol | RolA => moved == Rol8(before, m.p.c)
            case Lsr | LsrA => moved == Ror8(before, false)
            case Ror | RorA => moved == Ror8(before, m.p.c)
            case _ => true
  {
    hide Rol8, Ror8, Flags.OfValue;
  }

  lemma ShiftEquations(m: Machine, op: Operation, addr: word)
    requires op.Group() == Shifting
    ensures var after := Shift(m, op, addr);
            var before, result := ValueAt(m, Target(op), addr), ValueAt(after, Target(op), addr);
            match op
            case Asl | AslA => result + 0x100 * Num(after.p.c) == 2 * before
            case Rol | RolA => result + 0x100 * Num(after.p.c) == 2 * before + Num(m.p.c)
            case Lsr | LsrA => 2 * result + Num(after.p.c) == before
            case Ror | RorA => 2 * result + Num(after.p.c) == before + 0x100 * Num(m.p.c)
            case _ => true
  {
    hide Rol8, Ror8, Num, Shift, Target;
    ShiftIsRotate(m, op, addr);
    var v := ValueAt(m, Target(op), addr);
    ByteDoubled(v, false);
    ByteDoubled(v, m.p.c);
    ByteHalved(v, false);
    ByteHalved(v, m.p.c);
    NoCarry();
  }

  lemma NoCarry()
    ensures Num(false) == 0
  {
  }

  /** Addition, subtraction and the shifts as equations between the bytes and carries
      before and after, for an operand in any cell. */
  lemma Equations(m: Machine, op: Operation, addr: word)
    ensures var after := Exec(m, op, addr).m;
            var before, result := ValueAt(m, Target(op), addr), ValueAt(after, Target(op), addr);
            var operand: int := m.mem[addr];
            match op
            case Adc => result + 0x100 * Num(after.p.c) == before + operand + Num(m.p.c)
            case Sbc => result - 0x100 * Num(!after.p.c) == before - operand - Num(!m.p.c)
            case Asl | AslA => result + 0x100 * Num(after.p.c) == 2 * before
            case Rol | RolA => result + 0x100 * Num(after.p.c) == 2 * before + Num(m.p.c)
            case Lsr | LsrA => 2 * result + Num(after.p.c) == before
            case Ror | RorA => 2 * result + Num(after.p.c) == before + 0x100 * Num(m.p.c)
            case _ => true
  {
    hide Calculate, Shift, Move, UseStack, Direct, Num;
    match op.Group() {
      case Arithmetic =>
        if op == Adc || op == Sbc {
          SumEquations(m, op, addr);
        }
      case Shifting => ShiftEquations(m, op, addr);
      case _ =>
    }
  }

  /** V after ADC and SBC is signed overflow, and the compares put order in C, equality
      in Z, as coded, and the sign of the byte difference in N. */
  lemma Comparisons(m: Machine, op: Operation, addr: word)
    ensures var after := Exec(m, op, addr).m;
            var operand: int := m.mem[addr];
            match op
            case Adc => after.p.v == !(-0x80 <= Signed(m.a) + Signed(operand) + Num(m.p.c) < 0x80)
            case Sbc => after.p.v == !(-0x80 <= Signed(m.a) - Signed(operand) - Num(!m.p.c) < 0x80)
            case Cmp => after.p.c == (m.a >= operand) && after.p.z == (m.a == operand)
                        && after.p.n == ((m.a - operand) % 0x100 >= 0x80)
            case CmpBorrow => after.p.c == (m.a < operand) && after.p.z
                              && after.p.n == ((m.a - operand) % 0x100 >= 0x80)
            case Cpx => after.p.c == (m.x < operand) && after.p.z && after.p.n == ((m.x - operand) % 0x100 >= 0x80)
            case CpxLow => after.p.c == (m.x < addr % 0x100) && after.p.z
                           && after.p.n == ((m.x - addr % 0x100) % 0x100 >= 0x80)
            case Cpy => after.p.c == (m.y < operand) && after.p.z && after.p.n == ((m.y - operand) % 0x100 >= 0x80)
            case CpyLow => after.p.c == (m.y < addr % 0x100) && after.p.z
                           && after.p.n == ((m.y - addr % 0x100) % 0x100 >= 0x80)
            case _ => true
  {
  }

  /** `n` executions of one operation, one after the other. */
  function Repeat(m: Machine, op: Operation, addr: word, n: nat): Machine
    decreases n
  {
    if n == 0 then m else Exec(Repeat(m, op, addr, n - 1), op, addr).m
  }

  predicate CountsUp(op: Operation) {
    op == Inx || op == Iny || op == Inc || op == IncA
  }

  predicate CountsDown(op: Operation) {
    op == Dex || op == Dey || op == Dec || op == DecA
  }

  /** The counts that set C when they wrap. */
  predicate WrapsIntoC(op: Operation) {
    op == Inx || op == Iny || op == Dey
  }

  /** One count. */
  predicate Counted(m: Machine, after: Machine, op: Operation, addr: word) {
    var before: int := ValueAt(m, Target(op), addr);
    && ValueAt(after, Target(op), addr) == (if CountsUp(op) then (before + 1) % 0x100 else (before - 1) % 0x100)
    && if WrapsIntoC(op) && before == (if CountsUp(op) then 0xFF else 0) then after.p.c else after.p.c == m.p.c
  }

  lemma CountRegister(m: Machine, op: Operation, addr: word)
    requires op == Inx || op == Iny || op == Dex || op == Dey
    ensures Counted(m, Calculate(m, op, addr), op, addr)
  {
    hide Flags.OfValue, Compare, CompareBorrow, SetA, SetAlu, Adc8, Sbc8, BitAnd, BitOr, BitXor, Bit, Low;
  }

  lemma CountCell(m: Machine, op: Operation, addr: word)
    requires op == Inc || op == Dec || op == IncA || op == DecA
    ensures Counted(m, Shift(m, op, addr), op, addr)
  {
    hide Flags.OfValue, Rol8, Ror8, WithCarry;
  }

  lemma CountOnce(m: Machine, op: Operation, addr: word)
    requires CountsUp(op) || CountsDown(op)
    ensures Counted(m, Exec(m, op, addr).m, op, addr)
  {
    hide Calculate, Shift, Move, UseStack, Direct, Counted;
    if op.Group() == Arithmetic {
      CountRegister(m, op, addr);
    } else {
      CountCell(m, op, addr);
    }
  }

  /** One more count goes on round the ring, and wraps only from its end. */
  lemma RoundOnce(before: byte, n: nat, up: bool, last: byte, after: byte)
    requires n > 0 && last == (if up then before + n - 1 else before - n + 1) % 0x100
    requires after == if up then (last + 1) % 0x100 else (last - 1) % 0x100
    ensures var past, total := if up then before + n - 1 else before - n + 1, if up then before + n else before - n;
            && after == total % 0x100
            && (!(0 <= total < 0x100) <==> !(0 <= past < 0x100) || last == if up then 0xFF else 0)
  {
  }

  lemma OnlyAtOnce(m: Machine, place: Place, addr: word)
    ensures OnlyAt(m, m, place, addr)
  {
  }

  lemma OnlyAtTwice(m: Machine, last: Machine, after: Machine, place: Place, addr: word)
    requires OnlyAt(m, last, place, addr) && OnlyAt(last, after, place, addr)
    ensures OnlyAt(m, after, place, addr)
  {
  }

  /** `n` counts: round the 256 values, with C set once INX, INY or DEY has wrapped. */
  predicate CountedTimes(m: Machine, after: Machine, op: Operation, addr: word, n: nat) {
    var before: int := ValueAt(m, Target(op), addr);
    var total := if CountsUp(op) then before + n else before - n;
    && ValueAt(after, Target(op), addr) == total % 0x100
    && after.p.c == (m.p.c || (WrapsIntoC(op) && !(0 <= total < 0x100)))
  }

  lemma CountAgain(m: Machine, last: Machine, after: Machine, op: Operation, addr: word, n: nat)
    requires n > 0 && (CountsUp(op) || CountsDown(op))
    requires CountedTimes(m, last, op, addr, n - 1) && Counted(last, after, op, addr)
    ensures CountedTimes(m, after, op, addr, n)
  {
    hide Target, ValueAt, CountsUp, WrapsIntoC;
    var place := Target(op);
    RoundOnce(ValueAt(m, place, addr), n, CountsUp(op), ValueAt(last, place, addr), ValueAt(after, place, addr));
  }

  lemma CountNothing(m: Machine, op: Operation, addr: word)
    ensures CountedTimes(m, m, op, addr, 0)
  {
    hide Target;
  }

  /** Counting `n` times moves the register or cell by `n`, and nothing else. */
  lemma {:induction false} Counting(m: Machine, op: Operation, addr: word, n: nat)
    requires CountsUp(op) || CountsDown(op)
    ensures CountedTimes(m, Repeat(m, op, addr, n), op, addr, n)
    ensures OnlyAt(m, Repeat(m, op, addr, n), Target(op), addr)
    decreases n
  {
    hide Exec, Target, OnlyAt, Counted, CountedTimes;
    if n == 0 {
      CountNothing(m, op, addr);
      OnlyAtOnce(m, Target(op), addr);
    } else {
      var last, after := Repeat(m, op, addr, n - 1), Repeat(m, op, addr, n);
      Counting(m, op, addr, n - 1);
      CountOnce(last, op, addr);
      CountAgain(m, last, after, op, addr, n);
      OneResult(last, op, addr);
      OnlyAtTwice(m, last, after, Target(op), addr);
    }
  }

  // ---------------------------------------------------------------- moves

  /** Loads and stores copy a byte. */
  lemma LoadsAndStores(m: Machine, op: Operation, addr: word)
    requires op.Group() == Data
    ensures var after := Exec(m, op, addr).m;
            match op
            case Lda | LdaPlain => after.a == m.mem[addr]
            case Ldx => after.x == m.mem[addr]
            case Ldy => after.y == m.mem[addr]
            case Sta => after.mem[addr] == m.a
            case Stx => after.mem[addr] == m.x
            case Sty => after.mem[addr] == m.y
            case Stz => after.mem[addr] == 0
            case _ => true
  {
    hide BitAnd, BitOr, BitNot, Mask, Flags.OfValue, Calculate, Shift, UseStack, Direct;
  }

  /** So do the transfers. */
  lemma Transfers(m: Machine, op: Operation, addr: word)
    requires op.Group() == Control
    ensures var after := Exec(m, op, addr).m;
            match op
            case Tax => after.x == m.a
            case Tay => after.y == m.a
            case Txa => after.a == m.x
            case Tya => after.a == m.y
            case Tsx => after.x == m.s
            case Txs => after.s == m.x
            case _ => after == m.(pc := after.pc, p := after.p)
  {
    hide Bit, Flags.Get, Flags.Set, Calculate, Shift, Move, UseStack;
  }

  /** And the pulls, from the cell S points at. */
  lemma Pulls(m: Machine, op: Operation, addr: word)
    requires op.Group() == Stacking
    ensures var after := Exec(m, op, addr).m;
            match op
            case Pla => after.a == m.mem[m.s]
            case Plx => after.x == m.mem[m.s]
            case Ply => after.y == m.mem[m.s]
            case Plp | Rti => Pack(after.p) == m.mem[m.s]
            case _ => true
  {
    hide Pack, Unpack, Up, Down, Pair, High, Low, Calculate, Shift, Move, Direct;
    PackUnpack(m.mem[m.s]);
  }

  lemma PushCell(m: Machine, v: byte)
    ensures Push(m, v).s == (m.s - 1) % 0x100 && Push(m, v).mem == m.mem[(m.s - 1) % 0x100 := v]
  {
  }

  /** The pushes store below S, and PHP with the break flag set. */
  lemma Pushes(m: Machine, op: Operation, addr: word)
    requires op == Pha || op == Phx || op == Phy || op == Php
    ensures var after := Exec(m, op, addr).m;
            && after.s == (m.s - 1) % 0x100
            && after.mem == m.mem[(m.s - 1) % 0x100 := after.mem[after.s]]
            && after.mem[after.s] == match op
                                     case Pha => m.a
                                     case Phx => m.x
                                     case Phy => m.y
                                     case _ => Pack(m.p.(b := true))
  {
    hide Pack, Push, Calculate, Shift, Move, Direct;
    PushCell(m, match op case Pha => m.a case Phx => m.x case Phy => m.y case _ => Pack(m.p.(b := true)));
  }

  // ---------------------------------------------------------------- bits

  /** Masking with a complement clears bits. */
  lemma BitsOfNot(v: byte, k: bitnum)
    ensures Bit(BitNot(v), k) == !Bit(v, k)
  {
    assert Pow2(8) == 0x100;
    NotBit(v, 8, k);
  }

  lemma BitsOfGates(v: byte, w: byte, k: bitnum)
    ensures Bit(BitAnd(v, w), k) == (Bit(v, k) && Bit(w, k))
    ensures Bit(BitOr(v, w), k) == (Bit(v, k) || Bit(w, k))
    ensures Bit(BitXor(v, w), k) == (Bit(v, k) != Bit(w, k))
  {
    BitwiseBit(AndGate, v, w, k);
    BitwiseBit(OrGate, v, w, k);
    BitwiseBit(XorGate, v, w, k);
  }

  lemma BitsOfMask(j: bitnum, k: bitnum)
    ensures Bit(Mask(j), k) == (j == k)
  {
    Pow2Bit(j, k);
  }

  /** Two bytes with no set bit in common. */
  predicate Disjoint(v: byte, w: byte) {
    forall k: bitnum :: !(Bit(v, k) && Bit(w, k))
  }

  lemma SharedBits(v: byte, w: byte)
    ensures BitAnd(v, w) == 0 <==> Disjoint(v, w)
  {
    hide BitAnd;
    var both := BitAnd(v, w);
    forall k: bitnum
      ensures Bit(both, k) == (Bit(v, k) && Bit(w, k)) && !Bit(0, k)
    {
      BitsOfGates(v, w, k);
      ZeroBit(k);
    }
    if Disjoint(v, w) {
      assert Pow2(8) == 0x100;
      SameBits(both, 0, 8);
    } else {
      var k: bitnum :| Bit(v, k) && Bit(w, k);
      assert Bit(both, k) && !Bit(0, k);
    }
  }

  /** The logical operations, bit by bit. */
  lemma BitByBit(m: Machine, op: Operation, addr: word, k: bitnum)
    ensures var after := Exec(m, op, addr).m;
            var v := m.mem[addr];
            match op
            case And => Bit(after.a, k) == (Bit(m.a, k) && Bit(v, k))
            case Ora => Bit(after.a, k) == (Bit(m.a, k) || Bit(v, k))
            case Eor => Bit(after.a, k) == (Bit(m.a, k) != Bit(v, k))
            case Tsb => Bit(after.mem[addr], k) == (Bit(v, k) || Bit(m.a, k))
            case Trb => Bit(after.mem[addr], k) == (Bit(v, k) && !Bit(m.a, k))
            case Rmb(j) => Bit(after.mem[addr], k) == (Bit(v, k) && k != j)
            case Smb(j) => Bit(after.mem[addr], k) == (Bit(v, k) || k == j)
            case _ => true
  {
    hide BitAnd, BitOr, BitXor, BitNot, Mask, Bit;
    var v, a := m.mem[addr], m.a;
    BitsOfGates(a, v, k);
    BitsOfGates(v, a, k);
    BitsOfGates(v, BitNot(a), k);
    BitsOfNot(a, k);
    if op.Rmb? || op.Smb? {
      BitsOfMask(op.bit, k);
      BitsOfNot(Mask(op.bit), k);
      BitsOfGates(v, Mask(op.bit), k);
      BitsOfGates(v, BitNot(Mask(op.bit)), k);
    }
  }

  /** The tests: Z says that A and the operand share no bit, or that the operand is
      zero, as coded. */
  lemma BitTests(m: Machine, op: Operation, addr: word)
    ensures var after := Exec(m, op, addr).m;
            var v := m.mem[addr];
            match op
            case Tsb | Trb => after.p.z == Disjoint(m.a, v)
            case BitTest => after.p.z == Disjoint(m.a, v) && after.p.n == (Bit(m.a, 7) && Bit(v, 7))
            case BitLoad => after.p.z == (v == 0) && after.p.n == Bit(v, 7) && after.p.v == Bit(v, 6)
            case _ => true
  {
    hide BitAnd, BitOr, BitNot, Bit, IsNegative;
    var v := m.mem[addr];
    SharedBits(m.a, v);
    SharedBits(v, m.a);
    assert Disjoint(v, m.a) <==> Disjoint(m.a, v);
    BitsOfGates(m.a, v, 7);
    NegativeMeaning(BitAnd(m.a, v));
    NegativeMeaning(v);
  }

  /** The layout of the status byte, as pushed and pulled. */
  lemma StatusLayout(f: Flags)
    ensures Bit(Pack(f), 0) == f.c && Bit(Pack(f), 1) == f.z && Bit(Pack(f), 2) == f.i && Bit(Pack(f), 3) == f.d
    ensures Bit(Pack(f), 4) == f.b && Bit(Pack(f), 5) == f.u && Bit(Pack(f), 6) == f.v && Bit(Pack(f), 7) == f.n
  {
    hide Pack, Bit;
    PackBit(f, 0);
    PackBit(f, 1);
    PackBit(f, 2);
    PackBit(f, 3);
    PackBit(f, 4);
    PackBit(f, 5);
    PackBit(f, 6);
    PackBit(f, 7);
  }

  /** Reset. */
  lemma ResetState(mem: Memory, dev: word, debug: bool)
    ensures var m := Reset(mem, dev, debug);
            && m.a == 0 && m.x == 0 && m.y == 0 && m.s == 0xFF && Pack(m.p) == 0x24
            && m.pc == mem[0xFFFC] + 0x100 * mem[0xFFFD] as int
            && m.mem == mem && m.log == [] && m.dev == dev && m.isa == Isa() && m.debug == debug
  {
    hide Isa, Unpack, Pack;
    PackUnpack(0x24);
  }
}
