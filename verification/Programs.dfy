/** Short machine-code idioms, from the bytes in memory: comparing and branching, saving
    and restoring the registers. */
module Programs {
  import opened Bytes
  import opened Status
  import opened InstructionSet
  import opened MachineModel
  import opened OperationLaws
  import opened Opcodes

  // ---------------------------------------------------------------- compare and branch

  /** CMP with an immediate operand sets C, Z and N from the comparison of A with it. */
  lemma CmpImmediate(m: Machine)
    requires Fetches(m, 0xC9)
    ensures var n, v := Next(m), Code(m, 1);
            && n == m.(pc := (m.pc + 2) % 0x1_0000, p := n.p)
            && n.p == m.p.(c := m.a >= v, z := m.a == v, n := (m.a - v) % 0x100 >= 0x80)
  {
    hide Decode, Isa, Calculate, Shift, Move, UseStack, Direct, Exec;
    AluGrid(6, 2);
    var addr := (m.pc + 1) % 0x1_0000;
    StepRuns(m, 0xC9, Instruction(Cmp, Immediate), addr);
    CmpExec(m, addr);
  }

  lemma CmpExec(m: Machine, addr: word)
    ensures var r, v := Exec(m, Cmp, addr), m.mem[addr];
            r == Done(m.(p := m.p.(c := m.a >= v, z := m.a == v, n := (m.a - v) % 0x100 >= 0x80)))
  {
    hide Shift, Move, UseStack, Direct;
  }

  /** What the eight branches make of a comparison of `a` with `v`, V being `overflow`. */
  predicate Holds(row: byte, a: byte, v: byte, overflow: bool) {
    match row
    case 0 => (a - v) % 0x100 < 0x80
    case 1 => (a - v) % 0x100 >= 0x80
    case 2 => !overflow
    case 3 => overflow
    case 4 => a < v
    case 5 => a >= v
    case 6 => a != v
    case _ => a == v
  }

  /** A cell some way on from the program counter, and one below S. */
  function Ahead(pc: word, i: nat): word {
    (pc + i) % 0x1_0000
  }

  function Under(s: byte, i: byte): byte {
    if s < i then s - i + 0x100 else s - i
  }

  lemma AheadAgain(pc: word, i: nat, j: nat)
    ensures Ahead(Ahead(pc, i), j) == Ahead(pc, i + j) && Ahead(pc, 0) == pc
  {
  }

  lemma UnderAgain(s: byte, i: byte)
    requires i < 0xFF
    ensures Under(Under(s, i), 1) == Under(s, i + 1) && Under(s, 0) == s
  {
  }

  lemma Landing(pc: word, i: nat, d: int)
    ensures (Ahead(pc, i) + 2 + d) % 0x1_0000 == (pc + i + 2 + d) % 0x1_0000
  {
  }

  lemma NextByte(n: Machine)
    ensures Code(n, 1) == n.mem[Ahead(n.pc, 1)]
  {
  }

  /** Where a branch some way on goes. */
  lemma FarDestination(m: Machine, n: Machine, i: nat)
    requires n.pc == Ahead(m.pc, i) && n.mem == m.mem
    ensures var offset: int := m.mem[Ahead(m.pc, i + 1)];
            Destination(n) == (m.pc + i + 2 + if offset < 0x80 then offset else offset - 0x100) % 0x1_0000
  {
    hide Ahead, Code;
    var offset: int := m.mem[Ahead(m.pc, i + 1)];
    AheadAgain(m.pc, i, 1);
    NextByte(n);
    Landing(m.pc, i, if offset < 0x80 then offset else offset - 0x100);
  }

  /** CMP #v and a branch: BEQ goes exactly when A is v, BNE when it is not, BCS when it
      is not less, BCC when it is, BMI and BPL by the sign of the byte difference, and
      BVS and BVC as if the CMP were not there. Nothing else but C, Z and N changes. */
  lemma CompareAndBranch(m: Machine, row: byte)
    requires row < 8 && Fetches(m, 0xC9) && m.mem[Ahead(m.pc, 2)] == 32 * row + 16
    ensures var n, v, offset := Iterate(m, 2), Code(m, 1), m.mem[Ahead(m.pc, 3)] as int;
            var there := (m.pc + 4 + if offset < 0x80 then offset else offset - 0x100) % 0x1_0000;
            && n == m.(pc := if Holds(row, m.a, v, m.p.v) then there else Ahead(m.pc, 4), p := n.p)
            && n.p == m.p.(c := n.p.c, z := n.p.z, n := n.p.n)
  {
    hide Next, Isa, Destination, Code, Taken, Holds;
    CmpImmediate(m);
    var n := Next(m);
    assert Iterate(m, 2) == Iterate(n, 1) == Iterate(Next(n), 0);
    FarDestination(m, n, 2);
    AheadAgain(m.pc, 2, 2);
    BranchStep(n, row);
    TakenAfterCmp(n.p, row, m.a, Code(m, 1), m.p.v);
  }

  lemma TakenAfterCmp(p: Flags, row: byte, a: byte, v: byte, overflow: bool)
    requires row < 8 && p.v == overflow
    requires p.c == (a >= v) && p.z == (a == v) && p.n == ((a - v) % 0x100 >= 0x80)
    ensures Taken(p, 32 * row + 16) == Holds(row, a, v, overflow)
  {
  }

  // ---------------------------------------------------------------- saving the registers

  /** These five bytes are at the program counter. */
  predicate Runs(m: Machine, c0: byte, c1: byte, c2: byte, c3: byte, c4: byte) {
    && m.isa == Isa() && m.mem[m.pc] == c0
    && m.mem[Ahead(m.pc, 1)] == c1 && m.mem[Ahead(m.pc, 2)] == c2
    && m.mem[Ahead(m.pc, 3)] == c3 && m.mem[Ahead(m.pc, 4)] == c4
  }

  /** None of them in the three cells below S. */
  predicate ClearOfStack(m: Machine) {
    forall i: nat, j: byte | i < 5 && 1 <= j <= 3 :: Ahead(m.pc, i) != Under(m.s, j)
  }

  lemma PhaAt(m: Machine)
    requires Fetches(m, 0x48)
    ensures var n := Next(m);
            n == m.(pc := Ahead(m.pc, 1), s := Under(m.s, 1), mem := m.mem[Under(m.s, 1) := m.a], log := n.log)
  {
    hide Next, Isa, Push;
    PushStep(m);
    PushOnce(m, m.a);
  }

  /** PHA TXA PHA TYA PHA stores A, X and Y below S. */
  lemma Saves(m: Machine)
    requires Runs(m, 0x48, 0x8A, 0x48, 0x98, 0x48) && ClearOfStack(m)
    ensures var n := Iterate(m, 5);
            && n == m.(a := m.y, pc := Ahead(m.pc, 5), s := Under(m.s, 3), mem := n.mem, log := n.log)
            && n.mem == m.mem[Under(m.s, 1) := m.a][Under(m.s, 2) := m.x][Under(m.s, 3) := m.y]
  {
    hide Next, Isa, Ahead, Under;
    AheadAgain(m.pc, 0, 1);
    UnderAgain(m.s, 0);
    UnderAgain(m.s, 1);
    UnderAgain(m.s, 2);
    PhaAt(m);
    var m1 := Next(m);
    AheadAgain(m.pc, 1, 1);
    TransferAt(m1);
    var m2 := Next(m1);
    AheadAgain(m.pc, 2, 1);
    PhaAt(m2);
    var m3 := Next(m2);
    AheadAgain(m.pc, 3, 1);
    TransferAt(m3);
    var m4 := Next(m3);
    AheadAgain(m.pc, 4, 1);
    PhaAt(m4);
    FiveSteps(m);
  }

  lemma TransferAt(m: Machine)
    requires m.isa == Isa()
    ensures m.mem[m.pc] == 0x8A ==> Next(m) == m.(pc := Ahead(m.pc, 1), a := m.x)
    ensures m.mem[m.pc] == 0x98 ==> Next(m) == m.(pc := Ahead(m.pc, 1), a := m.y)
    ensures m.mem[m.pc] == 0xAA ==> Next(m) == m.(pc := Ahead(m.pc, 1), x := m.a)
    ensures m.mem[m.pc] == 0xA8 ==> Next(m) == m.(pc := Ahead(m.pc, 1), y := m.a)
  {
    hide Next, Isa;
    TransferStep(m);
  }

  lemma FiveSteps(m: Machine)
    ensures Iterate(m, 5) == Next(Next(Next(Next(Next(m)))))
  {
    hide Next;
    var m1 := Next(m);
    var m2 := Next(m1);
    var m3 := Next(m2);
    var m4 := Next(m3);
    assert Iterate(m, 5) == Iterate(m1, 4) == Iterate(m2, 3) == Iterate(m3, 2);
    assert Iterate(m3, 2) == Iterate(m4, 1) == Iterate(Next(m4), 0);
  }

  /** The cell `i` above S. */
  function Over(s: byte, i: byte): byte {
    if s + i < 0x100 then s + i else s + i - 0x100
  }

  lemma OverAgain(s: byte, i: byte)
    requires i < 0xFF
    ensures Over(Over(s, i), 1) == Over(s, i + 1) && Over(s, 0) == s
  {
  }

  lemma PlaAt(m: Machine)
    requires Fetches(m, 0x68)
    ensures Next(m) == m.(pc := Ahead(m.pc, 1), s := Over(m.s, 1), a := m.mem[m.s])
  {
    hide Next, Isa;
    PullStep(m);
  }

  /** PLA TAY PLA TAX PLA takes them back. */
  lemma TakesBack(m: Machine)
    requires Runs(m, 0x68, 0xA8, 0x68, 0xAA, 0x68)
    ensures Iterate(m, 5) == m.(a := m.mem[Over(m.s, 2)], x := m.mem[Over(m.s, 1)], y := m.mem[m.s],
                                pc := Ahead(m.pc, 5), s := Over(m.s, 3))
  {
    hide Next, Isa, Ahead, Over;
    AheadAgain(m.pc, 0, 1);
    OverAgain(m.s, 0);
    OverAgain(m.s, 1);
    OverAgain(m.s, 2);
    PlaAt(m);
    var m1 := Next(m);
    AheadAgain(m.pc, 1, 1);
    TransferAt(m1);
    var m2 := Next(m1);
    AheadAgain(m.pc, 2, 1);
    PlaAt(m2);
    var m3 := Next(m2);
    AheadAgain(m.pc, 3, 1);
    TransferAt(m3);
    var m4 := Next(m3);
    AheadAgain(m.pc, 4, 1);
    PlaAt(m4);
    FiveSteps(m);
  }

  lemma ThereAndBack(s: byte)
    ensures var low := Under(s, 3);
            Over(low, 0) == low && Over(low, 1) == Under(s, 2) && Over(low, 2) == Under(s, 1) && Over(low, 3) == s
    ensures Under(s, 1) != Under(s, 2) && Under(s, 1) != Under(s, 3) && Under(s, 2) != Under(s, 3)
  {
  }

  /** Saving and restoring. Whatever runs between the two, if it leaves S and the three
      cells as the first left them, A, X, Y and S are back after the second. */
  lemma RegistersSurvive(m: Machine, n: Machine)
    requires Runs(m, 0x48, 0x8A, 0x48, 0x98, 0x48) && ClearOfStack(m)
    requires Runs(n, 0x68, 0xA8, 0x68, 0xAA, 0x68)
    requires var saved := Iterate(m, 5);
             n.s == saved.s && forall i: byte | i < 3 :: n.mem[Over(n.s, i)] == saved.mem[Over(n.s, i)]
    ensures var back := Iterate(n, 5); back.a == m.a && back.x == m.x && back.y == m.y && back.s == m.s
  {
    hide Iterate, Ahead, Under, Over, Runs, ClearOfStack;
    Saves(m);
    TakesBack(n);
    ThereAndBack(m.s);
  }
}
