/** A machine-code loop that adds two n-byte numbers in memory:

        loop: LDA a,X / ADC b,X / STA c,X / INX / DEY / BNE loop

    It relies on INX and DEY leaving the carry alone from round to round. */
module AddLoop {
  import opened Bytes
  import opened Status
  import opened Alu
  import opened InstructionSet
  import opened MachineModel
  import opened RunLoop
  import opened Opcodes
  import opened MultiByte

  /** Where the code, the operands and the result are. */
  datatype Layout = Layout(org: word, a: word, b: word, c: word, n: byte)

  /** The `i`-th cell from `base`, going round at the top of memory. */
  function Cell(base: word, i: word): word {
    if base + i < 0x1_0000 then base + i else base + i - 0x1_0000
  }

  /** The 13 bytes of the loop, from `org`. */
  predicate Loaded(mem: Memory, at: Layout) {
    && mem[at.org] == 0xBD && CodeWord(mem, at.org, 1) == at.a
    && mem[Cell(at.org, 3)] == 0x7D && CodeWord(mem, at.org, 4) == at.b
    && mem[Cell(at.org, 6)] == 0x9D && CodeWord(mem, at.org, 7) == at.c
    && mem[Cell(at.org, 9)] == 0xE8
    && mem[Cell(at.org, 10)] == 0x88
    && mem[Cell(at.org, 11)] == 0xD0 && mem[Cell(at.org, 12)] == 0xF3
  }

  /** The two operand bytes `i` bytes into the code. */
  function CodeWord(mem: Memory, org: word, i: byte): word {
    Pair(mem, Cell(org, i), Cell(org, i + 1))
  }

  /** The result overwrites neither the code nor an operand byte still to be read; it may
      replace an operand in place. */
  predicate Apart(at: Layout) {
    && (forall i: nat, j: nat | i < at.n && j < 13 :: Cell(at.c, i) != Cell(at.org, j))
    && (forall i: nat, j: nat | i < j < at.n :: Cell(at.c, i) != Cell(at.a, j) && Cell(at.c, i) != Cell(at.b, j))
  }

  /** The `n`-byte number at `base`. */
  function Number(mem: Memory, base: word, n: nat): (xs: seq<byte>)
    requires n <= 0x100
    ensures |xs| == n
  {
    if n == 0 then [] else Number(mem, base, n - 1) + [mem[Cell(base, n - 1)]]
  }

  /** Appending a byte adds it at its weight. */
  lemma {:induction false} ValAppend(xs: seq<byte>, v: byte)
    ensures Val(xs + [v]) == Val(xs) + Pow(|xs|) * v
  {
    if xs == [] {
      assert Val([v]) == v by {
        assert [v][1..] == [];
      }
    } else {
      assert (xs + [v])[0] == xs[0] && (xs + [v])[1..] == xs[1..] + [v];
      ValAppend(xs[1..], v);
      assert Pow(|xs|) * v == 0x100 * (Pow(|xs| - 1) * v);
    }
  }

  /** At the top of the loop with `i` bytes done: the sum so far is at `c`, and the carry
      is in C. */
  predicate AtTop(m0: Machine, at: Layout, m: Machine, i: nat) {
    && i <= at.n && m.isa == Isa()
    && m.x == i && m.y == at.n - i
    && (forall k: word :: (forall j: nat | j < i :: k != Cell(at.c, j)) ==> m.mem[k] == m0.mem[k])
    && Val(Number(m.mem, at.c, i)) + Pow(i) * Num(m.p.c)
       == Val(Number(m0.mem, at.a, i)) + Val(Number(m0.mem, at.b, i)) + Num(m0.p.c)
  }

  lemma CellStep(base: word, i: nat, n: nat)
    requires i + n < 0x1_0000
    ensures (Cell(base, i) + n) % 0x1_0000 == Cell(base, i + n)
    ensures Cell(base, 0) == base
  {
  }

  lemma CellDistinct(base: word, i: nat, j: nat)
    requires i < j < 0x1_0000
    ensures Cell(base, i) != Cell(base, j)
  {
  }

  /** The loop has not overwritten itself. */
  lemma StillLoaded(m0: Machine, at: Layout, m: Machine, i: nat)
    requires Loaded(m0.mem, at) && Apart(at) && AtTop(m0, at, m, i)
    ensures Loaded(m.mem, at)
  {
    hide Cell, Val, Number;
    CellStep(at.org, 0, 0);
    forall j: nat | j < 13
      ensures m.mem[Cell(at.org, j)] == m0.mem[Cell(at.org, j)]
    {
    }
    assert m.mem[Cell(at.org, 0)] == m0.mem[Cell(at.org, 0)];
  }

  /** The operand of an instruction `k` bytes into the loop. */
  lemma OperandAt(m: Machine, at: Layout, k: byte)
    requires k < 16 && m.pc == Cell(at.org, k)
    ensures Operand16(m) == CodeWord(m.mem, at.org, k + 1)
    ensures IndexedX(m) == Cell(CodeWord(m.mem, at.org, k + 1), m.x)
  {
    hide Cell, Pair;
    CellStep(at.org, k, 1);
    CellStep(at.org, k + 1, 1);
    IndexedAt(m);
  }

  lemma IndexedAt(m: Machine)
    ensures IndexedX(m) == Cell(Operand16(m), m.x)
  {
    hide Operand16, Cell;
    CellStep(Operand16(m), 0, m.x);
  }

  lemma OffsetAt(m: Machine, at: Layout, k: byte)
    requires k < 16 && m.pc == Cell(at.org, k)
    ensures Operand8(m) == m.mem[Cell(at.org, k + 1)]
  {
    hide Cell;
    CellStep(at.org, k, 1);
  }

  lemma ThreeSteps(m: Machine)
    requires Continues(m) && Continues(Next(m)) && Continues(Next(Next(m)))
    ensures Iterate(m, 3) == Next(Next(Next(m))) && RunsFor(m, 3)
  {
    hide Next, Continues;
    assert Iterate(m, 0) == m && Iterate(m, 1) == Iterate(Next(m), 0);
    assert Iterate(m, 2) == Iterate(Next(m), 1) == Iterate(Next(Next(m)), 0);
    assert Iterate(m, 3) == Iterate(Next(m), 2) == Iterate(Next(Next(m)), 1) == Iterate(Next(Next(Next(m))), 0);
  }

  /** LDA, ADC and STA: one byte of the sum is stored, its carry is in C. */
  lemma Adding(m: Machine, at: Layout)
    requires m.isa == Isa() && Loaded(m.mem, at) && m.pc == at.org
    ensures var r := Adc8(m.mem[Cell(at.a, m.x)], m.mem[Cell(at.b, m.x)], m.p.c);
            var after := Iterate(m, 3);
            && RunsFor(m, 3)
            && after.mem == m.mem[Cell(at.c, m.x) := r.value] && after.p.c == r.carry
            && after.pc == Cell(at.org, 9) && after.x == m.x && after.y == m.y && after.isa == m.isa
  {
    hide Step, Isa, Decode, CodeWord, Adc8, Operand16, Operand8, Cell, IndexedX, Flags.OfValue;
    CellStep(at.org, 0, 3);
    CellStep(at.org, 3, 3);
    CellStep(at.org, 6, 3);
    OperandAt(m, at, 0);
    LdaIndexed(m);
    var m1 := Next(m);
    assert m1 == m.(a := m.mem[Cell(at.a, m.x)], p := m1.p, pc := Cell(at.org, 3)) && m1.p.c == m.p.c;
    OperandAt(m1, at, 3);
    AdcIndexed(m1);
    var m2 := Next(m1);
    var r := Adc8(m1.a, m.mem[Cell(at.b, m.x)], m.p.c);
    assert m2 == m1.(a := r.value, p := m2.p, pc := Cell(at.org, 6)) && m2.p.c == r.carry;
    OperandAt(m2, at, 6);
    StaIndexed(m2);
    ThreeSteps(m);
  }

  lemma CountUp(m: Machine)
    requires Fetches(m, 0xE8) && m.x < 255
    ensures Step(m).err == OK
    ensures Next(m) == m.(x := m.x + 1, p := Next(m).p, pc := (m.pc + 1) % 0x1_0000) && Next(m).p.c == m.p.c
  {
    hide Step, Isa, Decode;
    InxStep(m);
  }

  lemma CountDown(m: Machine)
    requires Fetches(m, 0x88) && m.y > 0
    ensures Step(m).err == OK
    ensures Next(m) == m.(y := m.y - 1, p := Next(m).p, pc := (m.pc + 1) % 0x1_0000) && Next(m).p.c == m.p.c
    ensures Next(m).p.z == (m.y == 1)
  {
    hide Step, Isa, Decode;
    DeyStep(m);
  }

  /** INX, DEY and BNE: away from the wraps the carry survives, and the branch goes back
      while Y is not zero. */
  lemma Counting(m: Machine, at: Layout)
    requires m.isa == Isa() && Loaded(m.mem, at) && m.pc == Cell(at.org, 9)
    requires m.x < 255 && m.y > 0
    ensures var after := Iterate(m, 3);
            && RunsFor(m, 3)
            && after.mem == m.mem && after.p.c == m.p.c && after.isa == m.isa
            && after.x == m.x + 1 && after.y == m.y - 1
            && after.pc == if after.y != 0 then at.org else Cell(at.org, 13)
  {
    hide Step, Isa, Decode, CodeWord, Operand16, Operand8, Cell, Signed;
    CellStep(at.org, 9, 1);
    CellStep(at.org, 10, 1);
    CellStep(at.org, 11, 2);
    CountUp(m);
    var m1 := Next(m);
    CountDown(m1);
    var m2 := Next(m1);
    OffsetAt(m2, at, 11);
    BneStep(m2);
    BackToTop(at.org);
    ThreeSteps(m);
  }

  /** An offset byte of 0xF3 leads back over the 13 bytes. */
  lemma BackToTop(org: word)
    ensures (Cell(org, 11) + 2 + Signed(0xF3)) % 0x1_0000 == org
  {
  }

  lemma {:induction false} NumberKept(mem: Memory, after: Memory, base: word, n: nat)
    requires n <= 0x100
    requires forall j: nat | j < n :: after[Cell(base, j)] == mem[Cell(base, j)]
    ensures Number(after, base, n) == Number(mem, base, n)
  {
    hide Cell;
    if n == 0 {
    } else {
      NumberKept(mem, after, base, n - 1);
    }
  }

  lemma Distribute(p: nat, z: int, c1: int, x: int, y: int, c: int)
    requires z + 0x100 * c1 == x + y + c
    ensures p * z + (0x100 * p) * c1 == p * x + p * y + p * c
  {
    assert p * z + (0x100 * p) * c1 == p * (z + 0x100 * c1);
    assert p * x + p * y + p * c == p * (x + y + c);
  }

  /** Storing the next byte of the sum extends the sum by one byte. */
  lemma SumGrows(m0: Machine, at: Layout, m: Machine, i: nat, after: Machine)
    requires Apart(at) && AtTop(m0, at, m, i) && i < at.n
    requires var r := Adc8(m.mem[Cell(at.a, i)], m.mem[Cell(at.b, i)], m.p.c);
             after.mem == m.mem[Cell(at.c, i) := r.value] && after.p.c == r.carry
    ensures Val(Number(after.mem, at.c, i + 1)) + Pow(i + 1) * Num(after.p.c)
            == Val(Number(m0.mem, at.a, i + 1)) + Val(Number(m0.mem, at.b, i + 1)) + Num(m0.p.c)
  {
    hide Cell, Val, Adc8;
    var x, y := m.mem[Cell(at.a, i)], m.mem[Cell(at.b, i)];
    assert x == m0.mem[Cell(at.a, i)] && y == m0.mem[Cell(at.b, i)];
    var z, c1 := after.mem[Cell(at.c, i)], after.p.c;
    forall j: nat | j < i
      ensures after.mem[Cell(at.c, j)] == m.mem[Cell(at.c, j)]
    {
      CellDistinct(at.c, j, i);
    }
    NumberKept(m.mem, after.mem, at.c, i);
    ValAppend(Number(m.mem, at.c, i), z);
    ValAppend(Number(m0.mem, at.a, i), x);
    ValAppend(Number(m0.mem, at.b, i), y);
    ByteAdded(x, y, m.p.c);
    Distribute(Pow(i), z, Num(c1), x, y, Num(m.p.c));
  }

  /** One round: six steps, one more byte of the sum. */
  lemma Round(m0: Machine, at: Layout, m: Machine, i: nat)
    requires Loaded(m0.mem, at) && Apart(at) && AtTop(m0, at, m, i) && i < at.n && m.pc == at.org
    ensures var after := Iterate(m, 6);
            && RunsFor(m, 6) && AtTop(m0, at, after, i + 1)
            && after.pc == if i + 1 < at.n then at.org else Cell(at.org, 13)
  {
    hide Step, Isa, Decode, Cell, Val, Number, Adc8, Next, Loaded, Pow;
    StillLoaded(m0, at, m, i);
    Adding(m, at);
    var m3 := Iterate(m, 3);
    SumGrows(m0, at, m, i, m3);
    KeptElsewhere(m0, at, m, i, m3);
    LoadedAfter(at, m.mem, m3.mem, i);
    Counting(m3, at);
    IterateAdd(m, 3, 3);
    RunsForAdd(m, 3, 3);
  }

  lemma LoadedAfter(at: Layout, mem: Memory, after: Memory, i: nat)
    requires Loaded(mem, at) && Apart(at) && i < at.n
    requires after == mem[Cell(at.c, i) := after[Cell(at.c, i)]]
    ensures Loaded(after, at)
  {
    hide Cell;
    CellStep(at.org, 0, 0);
    forall j: nat | j < 13
      ensures after[Cell(at.org, j)] == mem[Cell(at.org, j)]
    {
    }
    assert after[Cell(at.org, 0)] == mem[Cell(at.org, 0)];
  }

  lemma KeptElsewhere(m0: Machine, at: Layout, m: Machine, i: nat, after: Machine)
    requires AtTop(m0, at, m, i) && i < at.n
    requires after.mem == m.mem[Cell(at.c, i) := after.mem[Cell(at.c, i)]]
    ensures forall k: word :: (forall j: nat | j < i + 1 :: k != Cell(at.c, j)) ==> after.mem[k] == m0.mem[k]
  {
    hide Cell, Val, Number, Pow;
  }

  lemma {:induction false} Rounds(m0: Machine, at: Layout, i: nat)
    requires m0.isa == Isa() && Loaded(m0.mem, at) && Apart(at) && 0 < at.n
    requires m0.pc == at.org && m0.x == 0 && m0.y == at.n
    requires i <= at.n
    ensures var m := Iterate(m0, 6 * i);
            && RunsFor(m0, 6 * i) && AtTop(m0, at, m, i)
            && m.pc == if i < at.n then at.org else Cell(at.org, 13)
  {
    hide Next, Loaded, AtTop, Isa, Cell;
    if i == 0 {
      assert AtTop(m0, at, m0, 0) by { FirstTop(m0, at); }
    } else {
      Rounds(m0, at, i - 1);
      Round(m0, at, Iterate(m0, 6 * (i - 1)), i - 1);
      IterateAdd(m0, 6 * (i - 1), 6);
      RunsForAdd(m0, 6 * (i - 1), 6);
    }
  }

  lemma FirstTop(m0: Machine, at: Layout)
    requires m0.isa == Isa() && m0.x == 0 && m0.y == at.n
    ensures AtTop(m0, at, m0, 0)
  {
    hide Isa;
    assert Pow(0) == 1;
  }

  /** Started with X = 0, Y = n and any carry, the loop is at its top after every round
      before the n-th and leaves it after exactly n, in 6n steps that all let the machine
      run on; then the n bytes at `c` with C as the carry-out are the sum of the two
      n-byte numbers and the carry-in, and no other cell has changed. */
  lemma AddsNumbers(m: Machine, at: Layout)
    requires m.isa == Isa() && Loaded(m.mem, at) && Apart(at) && 0 < at.n
    requires m.pc == at.org && m.x == 0 && m.y == at.n
    ensures var after := Iterate(m, 6 * at.n);
            && RunsFor(m, 6 * at.n)
            && (forall i: nat | i < at.n :: Iterate(m, 6 * i).pc == at.org)
            && after.pc == Cell(at.org, 13) && after.x == at.n && after.y == 0
            && Val(Number(after.mem, at.c, at.n)) + Pow(at.n) * Num(after.p.c)
               == Val(Number(m.mem, at.a, at.n)) + Val(Number(m.mem, at.b, at.n)) + Num(m.p.c)
            && forall k: word :: (forall j: nat | j < at.n :: k != Cell(at.c, j)) ==> after.mem[k] == m.mem[k]
  {
    hide Next, Loaded, Isa, Cell, Iterate, Number, Pow, Val;
    forall i: nat | i < at.n
      ensures Iterate(m, 6 * i).pc == at.org
    {
      Rounds(m, at, i);
    }
    Rounds(m, at, at.n);
  }
}
