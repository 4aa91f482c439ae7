/** The program of examples/hello.s, assembled at 0x8000 with its message after it, run
    from reset on the print device at 0xFFFB. */
module Hello {
  import opened Bytes
  import opened Status
  import opened InstructionSet
  import opened MachineModel
  import opened RunLoop
  import opened Opcodes

  const MESSAGE := 0x800F
  const DEVICE: word := 0xFFFB

  /** ldx #0 / lda message,x / beq done / sta $FFFB / inx / jmp loop / stp, and the reset vector. */
  predicate Loaded(mem: Memory) {
    && mem[0x8000] == 0xA2 && mem[0x8001] == 0x00
    && mem[0x8002] == 0xBD && mem[0x8003] == 0x0F && mem[0x8004] == 0x80
    && mem[0x8005] == 0xF0 && mem[0x8006] == 0x07
    && mem[0x8007] == 0x8D && mem[0x8008] == 0xFB && mem[0x8009] == 0xFF
    && mem[0x800A] == 0xE8
    && mem[0x800B] == 0x4C && mem[0x800C] == 0x02 && mem[0x800D] == 0x80
    && mem[0x800E] == 0xDB
    && mem[0xFFFC] == 0x00 && mem[0xFFFD] == 0x80
  }

  /** The message byte the `i`-th round looks at; X wraps after 256 rounds. */
  function Letter(mem: Memory, i: nat): byte {
    mem[MESSAGE + i % 0x100]
  }

  /** The first `n` bytes of the message, going round after 256. */
  function Text(mem: Memory, n: nat): seq<byte> {
    if n == 0 then [] else Text(mem, n - 1) + [Letter(mem, n - 1)]
  }

  /** Only the print device's cell may differ. */
  predicate OnlyDevice(mem: Memory, after: Memory) {
    after == mem[0xFFFB := after[0xFFFB]]
  }

  /** At the top of the loop for the `r`-th time, having printed `r` bytes. */
  predicate AtLoop(mem: Memory, m: Machine, r: nat) {
    && m.isa == Isa() && m.dev == DEVICE
    && m.pc == 0x8002 && m.x == r % 0x100
    && OnlyDevice(mem, m.mem)
    && m.log == Text(mem, r)
  }

  /** What the loop's instructions are, wherever the program counter stands. */
  lemma Code(mem: Memory, m: Machine)
    requires Loaded(mem) && OnlyDevice(mem, m.mem)
    ensures m.pc == 0x8002 ==> m.mem[m.pc] == 0xBD && Operand16(m) == MESSAGE
    ensures m.pc == 0x8005 ==> m.mem[m.pc] == 0xF0 && BranchTarget(m) == 0x800E
    ensures m.pc == 0x8007 ==> m.mem[m.pc] == 0x8D && Operand16(m) == DEVICE
    ensures m.pc == 0x800A ==> m.mem[m.pc] == 0xE8
    ensures m.pc == 0x800B ==> m.mem[m.pc] == 0x4C && Operand16(m) == 0x8002
    ensures m.pc == 0x800E ==> m.mem[m.pc] == 0xDB
  {
    hide Operand16, BranchTarget;
    if m.pc == 0x8002 {
      Pointer(m, 0x0F, 0x80);
    } else if m.pc == 0x8005 {
      Displacement(m, 0x07);
    } else if m.pc == 0x8007 {
      Pointer(m, 0xFB, 0xFF);
    } else if m.pc == 0x800B {
      Pointer(m, 0x02, 0x80);
    }
  }

  lemma Pointer(m: Machine, low: byte, high: byte)
    requires m.pc < 0xFFFE && m.mem[m.pc + 1] == low && m.mem[m.pc + 2] == high
    ensures Operand16(m) == 0x100 * high + low
  {
  }

  lemma Displacement(m: Machine, offset: byte)
    requires m.pc < 0xFF00 && m.mem[m.pc + 1] == offset && offset < 0x80
    ensures BranchTarget(m) == m.pc + 2 + offset
  {
  }

  lemma SameLetter(mem: Memory, after: Memory, i: nat)
    requires OnlyDevice(mem, after)
    ensures Letter(after, i) == Letter(mem, i)
  {
  }

  lemma NextIndex(r: nat)
    ensures (r % 0x100 + 1) % 0x100 == (r + 1) % 0x100
  {
  }

  lemma TwoSteps(m: Machine)
    ensures Iterate(m, 0) == m && Iterate(m, 1) == Next(m) && Iterate(m, 2) == Next(Next(m))
  {
    hide Next;
    assert Iterate(Next(m), 1) == Iterate(Next(Next(m)), 0);
  }

  /** The first two steps of a round: load a byte and test it. */
  lemma Test(mem: Memory, m: Machine, r: nat)
    requires Loaded(mem) && AtLoop(mem, m, r)
    ensures RunsFor(m, 2)
    ensures var after := Iterate(m, 2);
            && after == m.(a := Letter(mem, r), p := m.p.OfValue(Letter(mem, r)), pc := after.pc)
            && after.pc == if Letter(mem, r) == 0 then 0x800E else 0x8007
  {
    hide Step, Isa, Decode, Loaded, Operand16, BranchTarget;
    Code(mem, m);
    SameLetter(mem, m.mem, r);
    LdaIndexed(m);
    var m1 := Next(m);
    assert m1 == SetA(m, Letter(mem, r)).(pc := 0x8005);
    Code(mem, m1);
    BeqStep(m1);
    TwoSteps(m);
  }

  /** The other three steps: print the byte, move on, jump back. */
  lemma Print(mem: Memory, m: Machine, r: nat)
    requires Loaded(mem) && m.isa == Isa() && m.dev == DEVICE
    requires m.pc == 0x8007 && m.x == r % 0x100 && m.a == Letter(mem, r)
    requires OnlyDevice(mem, m.mem) && m.log == Text(mem, r)
    ensures RunsFor(m, 3) && AtLoop(mem, Iterate(m, 3), r + 1)
  {
    hide Step, Isa, Decode, Letter, Loaded, Operand16;
    Code(mem, m);
    StaAbsolute(m);
    var m1 := Next(m);
    assert m1 == Write(m, DEVICE, m.a).(pc := 0x800A);
    assert Text(mem, r + 1) == Text(mem, r) + [Letter(mem, r)];
    assert m1.log == Text(mem, r + 1);
    assert OnlyDevice(mem, m1.mem);
    MoveOn(mem, m1, r);
    assert forall k: nat | k > 0 :: Iterate(m, k) == Iterate(m1, k - 1);
    RunsForSplit(m, 3);
  }

  lemma MoveOn(mem: Memory, m: Machine, r: nat)
    requires Loaded(mem) && m.isa == Isa() && m.dev == DEVICE
    requires m.pc == 0x800A && m.x == r % 0x100
    requires OnlyDevice(mem, m.mem) && m.log == Text(mem, r + 1)
    ensures RunsFor(m, 2) && AtLoop(mem, Iterate(m, 2), r + 1)
  {
    hide Step, Isa, Decode, Letter, Text, Loaded, Operand16;
    Code(mem, m);
    InxStep(m);
    var m1 := Next(m);
    assert m1 == m.(x := (m.x + 1) % 0x100, p := m1.p, pc := 0x800B);
    Code(mem, m1);
    JmpStep(m1);
    TwoSteps(m);
    NextIndex(r);
  }

  /** A round on a non-zero byte takes five steps and prints it. */
  lemma Round(mem: Memory, m: Machine, r: nat)
    requires Loaded(mem) && AtLoop(mem, m, r) && Letter(mem, r) != 0
    ensures RunsFor(m, 5) && AtLoop(mem, Iterate(m, 5), r + 1)
  {
    hide Next, Loaded, Letter, Text, OnlyDevice;
    Test(mem, m, r);
    Print(mem, Iterate(m, 2), r);
    IterateAdd(m, 2, 3);
    RunsForAdd(m, 2, 3);
  }

  lemma {:induction false} Rounds(mem: Memory, m: Machine, r: nat)
    requires Loaded(mem) && AtLoop(mem, m, 0)
    requires forall i: nat | i < r :: Letter(mem, i) != 0
    ensures RunsFor(m, 5 * r) && AtLoop(mem, Iterate(m, 5 * r), r)
  {
    hide Next, Loaded, Letter, AtLoop;
    if r == 0 {
    } else {
      Rounds(mem, m, r - 1);
      Round(mem, Iterate(m, 5 * (r - 1)), r - 1);
      IterateAdd(m, 5 * (r - 1), 5);
      RunsForAdd(m, 5 * (r - 1), 5);
    }
  }

  /** From reset, one step reaches the loop. */
  lemma Start(mem: Memory, debug: bool)
    requires Loaded(mem)
    ensures var m := Reset(mem, DEVICE, debug);
            RunsFor(m, 1) && AtLoop(mem, Iterate(m, 1), 0)
  {
    hide Step, Isa, Decode, Unpack;
    var m := Reset(mem, DEVICE, debug);
    LdxImmediate(m);
    assert Iterate(m, 0) == m && Iterate(m, 1) == Iterate(Next(m), 0);
  }

  lemma StartedRounds(mem: Memory, debug: bool, r: nat)
    requires Loaded(mem)
    requires forall i: nat | i < r :: Letter(mem, i) != 0
    ensures var m := Reset(mem, DEVICE, debug);
            RunsFor(m, 1 + 5 * r) && AtLoop(mem, Iterate(m, 1 + 5 * r), r)
  {
    hide Next, Loaded, Letter, AtLoop, Reset;
    var m := Reset(mem, DEVICE, debug);
    Start(mem, debug);
    Rounds(mem, Iterate(m, 1), r);
    IterateAdd(m, 1, 5 * r);
    RunsForAdd(m, 1, 5 * r);
  }

  /** On a zero byte two steps lead to STP, and the third stops. */
  lemma Finish(mem: Memory, m: Machine, r: nat)
    requires Loaded(mem) && AtLoop(mem, m, r) && Letter(mem, r) == 0
    ensures RunsFor(m, 2) && Step(Iterate(m, 2)).err == Stop
    ensures Iterate(m, 3).mem == m.mem && Iterate(m, 3).log == m.log
  {
    hide Step, Isa, Decode, Letter, Text;
    Test(mem, m, r);
    Code(mem, Iterate(m, 2));
    StpStep(Iterate(m, 2));
    IterateLast(m, 2);
  }

  lemma {:induction false} TextMeaning(mem: Memory, n: nat)
    ensures |Text(mem, n)| == n
    ensures forall i | 0 <= i < n :: Text(mem, n)[i] == Letter(mem, i)
  {
    hide Letter;
    if n == 0 {
    } else {
      TextMeaning(mem, n - 1);
    }
  }

  /** A message of at most 255 non-zero bytes and a zero is printed, byte for byte and in
      order, in exactly 5n + 4 steps; no cell changes but the print device's. */
  lemma PrintsMessage(mem: Memory, debug: bool, message: seq<byte>)
    requires Loaded(mem) && |message| <= 255
    requires 0 !in message && mem[MESSAGE..MESSAGE + |message| + 1] == message + [0]
    ensures var m := Reset(mem, DEVICE, debug);
            var steps := 5 * |message| + 4;
            && EndsAt(m, steps, Stop)
            && Iterate(m, steps).log == message
            && OnlyDevice(mem, Iterate(m, steps).mem)
            && forall fuel: nat | fuel >= steps :: Execute(m, fuel) == RunResult(Iterate(m, steps), Stopped)
  {
    hide Next, Loaded, AtLoop, Reset, Step, OnlyDevice;
    var m := Reset(mem, DEVICE, debug);
    var n := |message|;
    forall i: nat | i <= n
      ensures Letter(mem, i) == (message + [0])[i]
    {
      assert mem[MESSAGE..MESSAGE + n + 1][i] == mem[MESSAGE + i];
    }
    StartedRounds(mem, debug, n);
    Ending(mem, m, n);
    TextMeaning(mem, n);
    assert Text(mem, n) == message;
    forall fuel: nat | fuel >= 5 * n + 4
      ensures Execute(m, fuel) == RunResult(Iterate(m, 5 * n + 4), Stopped)
    {
      EndsAtDecides(m, 5 * n + 4, Stop, fuel);
    }
  }

  lemma Ending(mem: Memory, m: Machine, n: nat)
    requires Loaded(mem) && RunsFor(m, 1 + 5 * n) && AtLoop(mem, Iterate(m, 1 + 5 * n), n) && Letter(mem, n) == 0
    ensures var end := Iterate(m, 5 * n + 4);
            EndsAt(m, 5 * n + 4, Stop) && end.log == Text(mem, n) && OnlyDevice(mem, end.mem)
  {
    hide Next, Loaded, Step, Letter, Text;
    var last := Iterate(m, 1 + 5 * n);
    Finish(mem, last, n);
    RunsForAdd(m, 1 + 5 * n, 2);
    IterateAdd(m, 1 + 5 * n, 2);
    IterateAdd(m, 1 + 5 * n, 3);
  }

  /** If none of the 256 bytes from `message` is zero the program never stops, and the
      first r rounds print r bytes, going round and round those 256. */
  lemma NeverStops(mem: Memory, debug: bool, message: seq<byte>, r: nat)
    requires Loaded(mem) && |message| == 0x100
    requires 0 !in message && mem[MESSAGE..MESSAGE + 0x100] == message
    ensures var m := Reset(mem, DEVICE, debug);
            var after := Iterate(m, 1 + 5 * r);
            && |after.log| == r && (forall i | 0 <= i < r :: after.log[i] == message[i % 0x100])
            && OnlyDevice(mem, after.mem)
            && RunsFor(m, r) && Execute(m, r).halt == Unfinished
  {
    hide Next, Loaded, Reset, Step, OnlyDevice;
    var m := Reset(mem, DEVICE, debug);
    forall i: nat
      ensures Letter(mem, i) == message[i % 0x100]
    {
      assert mem[MESSAGE..MESSAGE + 0x100][i % 0x100] == mem[MESSAGE + i % 0x100];
    }
    StartedRounds(mem, debug, r);
    TextMeaning(mem, r);
    ExecuteMeaning(m, r);
  }
}
