/** What a step may change, over every operation: which memory cells, what is printed,
    where the program counter goes, and how far the stack pointer moves; then the same
    over whole runs. */
module Effects {
  import opened Bytes
  import opened Status
  import opened Alu
  import opened InstructionSet
  import opened MachineModel

  // ---------------------------------------------------------------- stores

  /** One byte stored at one address. */
  datatype Put = Put(addr: word, v: byte)

  function Apply(mem: Memory, puts: seq<Put>): Memory
    decreases |puts|
  {
    if puts == [] then mem else Apply(mem[puts[0].addr := puts[0].v], puts[1..])
  }

  /** The bytes among `puts` stored at the device, in order. */
  function Printed(puts: seq<Put>, dev: word): seq<byte> {
    if puts == [] then []
    else (if puts[0].addr == dev then [puts[0].v] else []) + Printed(puts[1..], dev)
  }

  /** The value an operation stores at its operand address, if it stores one. */
  function Stored(m: Machine, op: Operation, addr: word): Option<byte> {
    var v: int := m.mem[addr];
    match op
    case Asl => Some(Rol8(v, false).value)
    case Lsr => Some(Ror8(v, false).value)
    case Rol => Some(Rol8(v, m.p.c).value)
    case Ror => Some(Ror8(v, m.p.c).value)
    case Inc => Some((v + 1) % 0x100)
    case Dec => Some((v - 1) % 0x100)
    case Sta => Some(m.a)
    case Stx => Some(m.x)
    case Sty => Some(m.y)
    case Stz => Some(0)
    case Tsb => Some(BitOr(v, m.a))
    case Trb => Some(BitAnd(v, BitNot(m.a)))
    case Rmb(k) => Some(BitAnd(v, BitNot(Mask(k))))
    case Smb(k) => Some(BitOr(v, Mask(k)))
    case _ => None
  }

  /** The bytes an operation pushes, first pushed first. */
  function PushedBytes(m: Machine, op: Operation): seq<byte> {
    match op
    case Jsr => [High(m.pc), Low(m.pc)]
    case Brk => [High(m.pc), Low(m.pc), Pack(m.p)]
    case Pha => [m.a]
    case Phx => [m.x]
    case Phy => [m.y]
    case Php => [Pack(m.p.Set(BreakCommand, true))]
    case _ => []
  }

  /** How many bytes an operation pulls. */
  function PulledCount(op: Operation): nat {
    match op
    case Rts => 2
    case Rti => 3
    case Pla | Plx | Ply | Plp => 1
    case _ => 0
  }

  function PushPuts(s: byte, bytes: seq<byte>): seq<Put>
    decreases |bytes|
  {
    if bytes == [] then [] else [Put(Down(s), bytes[0])] + PushPuts(Down(s), bytes[1..])
  }

  /** Every store of an operation, in order. */
  function Puts(m: Machine, op: Operation, addr: word): seq<Put> {
    match Stored(m, op, addr)
    case Some(v) => [Put(addr, v)]
    case None => PushPuts(m.s, PushedBytes(m, op))
  }

  function StepPuts(m: Machine): seq<Put> {
    if Ready(m) then Puts(m, Fetched(m).op, Address(m)) else []
  }

  /** `after` differs from `m`, as far as memory and printing go, by these stores. */
  predicate Changed(m: Machine, after: Machine, puts: seq<Put>) {
    && after.mem == Apply(m.mem, puts)
    && after.log == m.log + Printed(puts, m.dev)
    && after.dev == m.dev && after.isa == m.isa && after.debug == m.debug
  }

  lemma ChangedByNothing(m: Machine, after: Machine)
    requires after.mem == m.mem && after.log == m.log
    requires after.dev == m.dev && after.isa == m.isa && after.debug == m.debug
    ensures Changed(m, after, [])
  {
  }

  lemma ChangedByWrite(m: Machine, after: Machine, addr: word, v: byte)
    requires var w := Write(m, addr, v); after.mem == w.mem && after.log == w.log
    requires after.dev == m.dev && after.isa == m.isa && after.debug == m.debug
    ensures Changed(m, after, [Put(addr, v)])
  {
    assert Apply(m.mem[addr := v], []) == m.mem[addr := v];
    assert Printed([], m.dev) == [];
  }

  lemma CalculateChanges(m: Machine, op: Operation, addr: word)
    requires op.Group() == Arithmetic
    ensures Changed(m, Calculate(m, op, addr), Puts(m, op, addr))
  {
    hide Calculate, Changed;
    CalculateStores(m, op, addr);
    assert Puts(m, op, addr) == [];
    ChangedByNothing(m, Calculate(m, op, addr));
  }

  lemma CalculateStores(m: Machine, op: Operation, addr: word)
    requires op.Group() == Arithmetic
    ensures var after := Calculate(m, op, addr);
            && after.mem == m.mem && after.log == m.log
            && after.dev == m.dev && after.isa == m.isa && after.debug == m.debug
  {
    hide Adc8, Sbc8, BitAnd, BitOr, BitXor, Bit, Low, Flags.OfValue;
  }

  lemma ShiftStores(m: Machine, op: Operation, addr: word)
    requires op.Group() == Shifting && Stored(m, op, addr).Some?
    ensures var after := Shift(m, op, addr);
            var written := Write(m, addr, Stored(m, op, addr).value);
            && after.dev == m.dev && after.isa == m.isa && after.debug == m.debug
            && after.mem == written.mem && after.log == written.log
  {
    hide Rol8, Ror8, Flags.OfValue;
  }

  lemma ShiftInA(m: Machine, op: Operation, addr: word)
    requires op.Group() == Shifting && Stored(m, op, addr) == None
    ensures var after := Shift(m, op, addr);
            && after.mem == m.mem && after.log == m.log
            && after.dev == m.dev && after.isa == m.isa && after.debug == m.debug
  {
    hide Rol8, Ror8, Flags.OfValue;
  }

  lemma ShiftChanges(m: Machine, op: Operation, addr: word)
    requires op.Group() == Shifting
    ensures Changed(m, Shift(m, op, addr), Puts(m, op, addr))
  {
    hide Shift, Stored, Changed, Write;
    NoPushes(m, op);
    match Stored(m, op, addr) {
      case Some(v) =>
        ShiftStores(m, op, addr);
        ChangedByWrite(m, Shift(m, op, addr), addr, v);
      case None =>
        ShiftInA(m, op, addr);
        ChangedByNothing(m, Shift(m, op, addr));
    }
  }

  /** Only the stack group pushes or pulls. */
  lemma NoPushes(m: Machine, op: Operation)
    requires op.Group() != Stacking
    ensures PushedBytes(m, op) == [] && PulledCount(op) == 0
  {
  }

  lemma MoveChanges(m: Machine, op: Operation, addr: word)
    requires op.Group() == Data
    ensures Changed(m, Move(m, op, addr), Puts(m, op, addr))
  {
    hide BitAnd, BitOr, Changed;
    var after := Move(m, op, addr);
    match Stored(m, op, addr) {
      case Some(v) => ChangedByWrite(m, after, addr, v);
      case None => ChangedByNothing(m, after);
    }
  }

  /** Pushes, one after the other. */
  function PushAll(m: Machine, bytes: seq<byte>): Machine
    decreases |bytes|
  {
    if bytes == [] then m else PushAll(Push(m, bytes[0]), bytes[1..])
  }

  lemma {:induction false} PushAllChanges(m: Machine, bytes: seq<byte>)
    ensures Changed(m, PushAll(m, bytes), PushPuts(m.s, bytes))
    decreases |bytes|
  {
    hide Down;
    if bytes == [] {
      ChangedByNothing(m, m);
    } else {
      var m1 := Push(m, bytes[0]);
      PushAllChanges(m1, bytes[1..]);
      assert PushPuts(m.s, bytes)[1..] == PushPuts(m1.s, bytes[1..]);
    }
  }

  lemma PushTwo(m: Machine, a: byte, b: byte)
    ensures PushAll(m, [a, b]) == Push(Push(m, a), b)
  {
    assert [a, b][1..] == [b] && [b][1..] == [];
    assert PushAll(Push(m, a), [b]) == Push(Push(m, a), b);
  }

  lemma PushThree(m: Machine, a: byte, b: byte, c: byte)
    ensures PushAll(m, [a, b, c]) == Push(Push(Push(m, a), b), c)
  {
    assert [a, b, c][1..] == [b, c];
    PushTwo(Push(m, a), b, c);
  }

  /** The stack operations touch memory only by the pushes they make. */
  lemma UseStackPushes(m: Machine, op: Operation, addr: word)
    requires op.Group() == Stacking
    ensures var pushed := PushAll(m, PushedBytes(m, op));
            var after := UseStack(m, op, addr).m;
            && after.mem == pushed.mem && after.log == pushed.log
            && after.dev == m.dev && after.isa == m.isa && after.debug == m.debug
  {
    hide Pack, Unpack, Pair, High, Low, Push, PushAll;
    PushKeeps(m, PushedBytes(m, op));
    PushNone(m);
    match op {
      case Jsr => PushTwo(m, High(m.pc), Low(m.pc));
      case Brk => PushThree(m, High(m.pc), Low(m.pc), Pack(m.p));
      case Pha => PushOne(m, m.a);
      case Phx => PushOne(m, m.x);
      case Phy => PushOne(m, m.y);
      case Php => PushOne(m, Pack(m.p.(b := true)));
      case _ =>
    }
  }

  lemma PushNone(m: Machine)
    ensures PushAll(m, []) == m
  {
  }

  lemma PushOne(m: Machine, a: byte)
    ensures PushAll(m, [a]) == Push(m, a)
  {
    assert [a][1..] == [];
  }

  lemma {:induction false} PushKeeps(m: Machine, bytes: seq<byte>)
    ensures var after := PushAll(m, bytes);
            after == m.(mem := after.mem, log := after.log, s := after.s)
    decreases |bytes|
  {
    if bytes == [] {
    } else {
      PushKeeps(Push(m, bytes[0]), bytes[1..]);
    }
  }

  lemma ExecChanges(m: Machine, op: Operation, addr: word)
    ensures Changed(m, Exec(m, op, addr).m, Puts(m, op, addr))
  {
    hide Calculate, Shift, Move, UseStack;
    match op.Group() {
      case Arithmetic => CalculateChanges(m, op, addr);
      case Shifting => ShiftChanges(m, op, addr);
      case Data => MoveChanges(m, op, addr);
      case Stacking =>
        UseStackPushes(m, op, addr);
        PushAllChanges(m, PushedBytes(m, op));
      case Control => ChangedByNothing(m, Exec(m, op, addr).m);
    }
  }

  /** Every store a step makes, and nothing else, reaches memory and the print log. */
  lemma StepChanges(m: Machine)
    ensures Changed(m, Next(m), StepPuts(m))
  {
    hide Exec, Resolve, Puts;
    if Ready(m) {
      ExecChanges(m, Fetched(m).op, Address(m));
    } else {
      ChangedByNothing(m, Next(m));
    }
  }

  // ---------------------------------------------------------------- the frame of a step

  lemma {:induction false} PushPutsBelow(s: byte, bytes: seq<byte>, put: Put) returns (d: int)
    requires put in PushPuts(s, bytes) && |bytes| <= 0x100
    ensures -|bytes| <= d <= -1 && put.addr == Moved(s, d)
    decreases |bytes|
  {
    if put == Put(Down(s), bytes[0]) {
      d := -1;
    } else {
      hide Moved;
      var rest := PushPutsBelow(Down(s), bytes[1..], put);
      d := rest - 1;
      MovedOnce(s, d);
    }
  }

  /** The stack is in page zero, not in page one. */
  lemma StackIsInPageZero(m: Machine, put: Put)
    requires Ready(m) && Fetched(m).op.Group() == Stacking && put in StepPuts(m)
    ensures put.addr < 0x100
  {
    hide Resolve, Moved, PushedBytes;
    AtMostThree(m, Fetched(m).op);
    var d := PushPutsBelow(m.s, PushedBytes(m, Fetched(m).op), put);
  }

  lemma {:induction false} ApplyUntouched(mem: Memory, puts: seq<Put>, a: word)
    requires forall put | put in puts :: put.addr != a
    ensures Apply(mem, puts)[a] == mem[a]
    decreases |puts|
  {
    if puts == [] {
    } else {
      assert puts[0] in puts;
      ApplyUntouched(mem[puts[0].addr := puts[0].v], puts[1..], a);
    }
  }

  /** A step stores only at its operand address or in the three page-zero cells below S. */
  lemma StepFrame(m: Machine, a: word)
    ensures Next(m).mem[a] != m.mem[a] ==>
              Ready(m) && (a == Address(m) || a == Moved(m.s, -1) || a == Moved(m.s, -2) || a == Moved(m.s, -3))
  {
    hide Exec, Resolve, Next, Stored, Moved, PushedBytes;
    StepChanges(m);
    if forall put | put in StepPuts(m) :: put.addr != a {
      ApplyUntouched(m.mem, StepPuts(m), a);
    } else {
      var put :| put in StepPuts(m) && put.addr == a;
      var op := Fetched(m).op;
      if Stored(m, op, Address(m)) == None {
        AtMostThree(m, op);
        var d := PushPutsBelow(m.s, PushedBytes(m, op), put);
      }
    }
  }

  lemma AtMostThree(m: Machine, op: Operation)
    ensures |PushedBytes(m, op)| <= 3
  {
  }

  /** Outside the stack group S is kept, except by TXS; the raw bit 5 always is. */
  lemma CalculateKeeps(m: Machine, op: Operation, addr: word)
    requires op.Group() == Arithmetic
    ensures var after := Calculate(m, op, addr); after.s == m.s && after.pc == m.pc && after.p.u == m.p.u
  {
    hide Adc8, Sbc8, BitAnd, BitOr, BitXor, Bit, Low;
  }

  lemma ShiftKeeps(m: Machine, op: Operation, addr: word)
    requires op.Group() == Shifting
    ensures var after := Shift(m, op, addr); after.s == m.s && after.pc == m.pc && after.p.u == m.p.u
  {
    hide Rol8, Ror8;
  }

  lemma MoveKeeps(m: Machine, op: Operation, addr: word)
    requires op.Group() == Data
    ensures var after := Move(m, op, addr); after.s == m.s && after.pc == m.pc && after.p.u == m.p.u
  {
    hide BitAnd, BitOr;
  }

  lemma DirectKeeps(m: Machine, op: Operation, addr: word)
    requires op.Group() == Control
    ensures var r := Direct(m, op, addr);
            && (op != Txs ==> r.m.s == m.s)
            && (r.err != OKPCModified ==> r.m.pc == m.pc)
            && r.m.p.u == m.p.u
  {
    hide Flags.Set, Flags.Get, Bit;
  }

  lemma UseStackKeepsPC(m: Machine, op: Operation, addr: word)
    requires op.Group() == Stacking
    ensures UseStack(m, op, addr).err != OKPCModified ==> UseStack(m, op, addr).m.pc == m.pc
  {
    hide Pack, Unpack, Pair, High, Low;
  }

  lemma ExecKeepsPC(m: Machine, op: Operation, addr: word)
    ensures Exec(m, op, addr).err != OKPCModified ==> Exec(m, op, addr).m.pc == m.pc
  {
    hide Calculate, Shift, Move, UseStack, Direct;
    match op.Group() {
      case Arithmetic => CalculateKeeps(m, op, addr);
      case Shifting => ShiftKeeps(m, op, addr);
      case Data => MoveKeeps(m, op, addr);
      case Stacking => UseStackKeepsPC(m, op, addr);
      case Control => DirectKeeps(m, op, addr);
    }
  }

  /** The program counter moves by the length of the addressing mode unless the
      instruction set it; an instruction that is not executed does not move it. */
  lemma StepAdvances(m: Machine)
    requires Step(m).err != OKPCModified
    ensures Next(m).pc == (m.pc + if Ready(m) then BytesForAddressingMode(Fetched(m).mode) else 0) % 0x1_0000
  {
    hide Exec, Resolve;
    if Ready(m) {
      ExecKeepsPC(m, Fetched(m).op, Address(m));
    }
  }

  // ---------------------------------------------------------------- whole runs

  function RunPuts(m: Machine, k: nat): seq<Put>
    decreases k
  {
    if k == 0 then [] else StepPuts(m) + RunPuts(Next(m), k - 1)
  }

  lemma {:induction false} ApplyConcat(mem: Memory, p: seq<Put>, q: seq<Put>)
    ensures Apply(mem, p + q) == Apply(Apply(mem, p), q)
    decreases |p|
  {
    if p == [] {
      assert p + q == q;
    } else {
      assert (p + q)[0] == p[0] && (p + q)[1..] == p[1..] + q;
      ApplyConcat(mem[p[0].addr := p[0].v], p[1..], q);
    }
  }

  lemma {:induction false} PrintedConcat(p: seq<Put>, q: seq<Put>, dev: word)
    ensures Printed(p + q, dev) == Printed(p, dev) + Printed(q, dev)
    decreases |p|
  {
    if p == [] {
      assert p + q == q;
    } else {
      assert (p + q)[0] == p[0] && (p + q)[1..] == p[1..] + q;
      PrintedConcat(p[1..], q, dev);
      var first := if p[0].addr == dev then [p[0].v] else [];
      assert first + (Printed(p[1..], dev) + Printed(q, dev)) == (first + Printed(p[1..], dev)) + Printed(q, dev);
    }
  }

  /** Along every run, memory is the loaded memory with the run's stores applied, and the
      log is exactly the bytes stored at the print device, in order, pushes included. */
  lemma {:induction false} RunChanges(m: Machine, k: nat)
    ensures Changed(m, Iterate(m, k), RunPuts(m, k))
    decreases k
  {
    hide Next, StepPuts;
    if k > 0 {
      StepChanges(m);
      RunChanges(Next(m), k - 1);
      ApplyConcat(m.mem, StepPuts(m), RunPuts(Next(m), k - 1));
      PrintedConcat(StepPuts(m), RunPuts(Next(m), k - 1), m.dev);
    } else {
      ChangedByNothing(m, m);
    }
  }

  /** A cell no store of the run targets keeps its loaded value. */
  lemma UntargetedCell(m: Machine, k: nat, a: word)
    requires forall put | put in RunPuts(m, k) :: put.addr != a
    ensures Iterate(m, k).mem[a] == m.mem[a]
  {
    RunChanges(m, k);
    ApplyUntouched(m.mem, RunPuts(m, k), a);
  }

  lemma {:induction false} LastPut(mem: Memory, puts: seq<Put>, dev: word)
    ensures var out := Printed(puts, dev);
            Apply(mem, puts)[dev] == if out == [] then mem[dev] else out[|out| - 1]
    decreases |puts|
  {
    if puts == [] {
    } else {
      LastPut(mem[puts[0].addr := puts[0].v], puts[1..], dev);
    }
  }

  /** The device's cell holds the last byte printed, or its loaded value if none was. */
  lemma DeviceCell(m: Machine, k: nat)
    ensures m.log <= Iterate(m, k).log
    ensures var out := Iterate(m, k).log[|m.log|..];
            && out == Printed(RunPuts(m, k), m.dev)
            && Iterate(m, k).mem[m.dev] == if out == [] then m.mem[m.dev] else out[|out| - 1]
  {
    RunChanges(m, k);
    LastPut(m.mem, RunPuts(m, k), m.dev);
  }

  // ---------------------------------------------------------------- the stack pointer

  lemma UpsAndDowns(s: byte)
    ensures Down(s) == (s - 1) % 0x100 && Down(Down(s)) == (s - 2) % 0x100 && Down(Down(Down(s))) == (s - 3) % 0x100
    ensures Up(s) == (s + 1) % 0x100 && Up(Up(s)) == (s + 2) % 0x100 && Up(Up(Up(s))) == (s + 3) % 0x100
  {
  }

  lemma UseStackMovesS(m: Machine, op: Operation, addr: word)
    requires op.Group() == Stacking
    ensures UseStack(m, op, addr).m.s == (m.s - |PushedBytes(m, op)| + PulledCount(op)) % 0x100
  {
    hide Pack, Unpack, Pair, High, Low, Up, Down;
    UpsAndDowns(m.s);
  }

  lemma ExecMovesS(m: Machine, op: Operation, addr: word)
    requires op != Txs
    ensures Exec(m, op, addr).m.s == (m.s - |PushedBytes(m, op)| + PulledCount(op)) % 0x100
  {
    hide Calculate, Shift, Move, UseStack, Direct, PushedBytes, PulledCount;
    if op.Group() == Stacking {
      UseStackMovesS(m, op, addr);
    } else {
      NoPushes(m, op);
      PlainKeepsS(m, op, addr);
    }
  }

  lemma PlainKeepsS(m: Machine, op: Operation, addr: word)
    requires op.Group() != Stacking && op != Txs
    ensures Exec(m, op, addr).m.s == m.s
  {
    hide Calculate, Shift, Move, UseStack, Direct;
    match op.Group() {
      case Arithmetic => CalculateKeeps(m, op, addr);
      case Shifting => ShiftKeeps(m, op, addr);
      case Data => MoveKeeps(m, op, addr);
      case Control => DirectKeeps(m, op, addr);
    }
  }

  /** No TXS is executed in the first `k` steps. */
  predicate NoTxs(m: Machine, k: nat)
    decreases k
  {
    k == 0 || ((Ready(m) ==> Fetched(m).op != Txs) && NoTxs(Next(m), k - 1))
  }

  /** Bytes pushed and bytes pulled in the first `k` steps. */
  function PushedIn(m: Machine, k: nat): nat
    decreases k
  {
    if k == 0 then 0
    else (if Ready(m) then |PushedBytes(m, Fetched(m).op)| else 0) + PushedIn(Next(m), k - 1)
  }

  function PulledIn(m: Machine, k: nat): nat
    decreases k
  {
    if k == 0 then 0
    else (if Ready(m) then PulledCount(Fetched(m).op) else 0) + PulledIn(Next(m), k - 1)
  }

  lemma StepMovesS(m: Machine)
    requires Ready(m) ==> Fetched(m).op != Txs
    ensures Next(m).s == (m.s - PushedIn(m, 1) + PulledIn(m, 1)) % 0x100
  {
    hide Exec, Resolve, PushedBytes, PulledCount;
    assert PushedIn(Next(m), 0) == 0 && PulledIn(Next(m), 0) == 0;
    if Ready(m) {
      ExecMovesS(m, Fetched(m).op, Address(m));
    }
  }

  lemma CountsNothing(m: Machine)
    ensures PushedIn(m, 0) == 0 && PulledIn(m, 0) == 0
  {
  }

  lemma FirstStepCounts(m: Machine, k: nat)
    requires k > 0
    ensures PushedIn(m, k) == PushedIn(m, 1) + PushedIn(Next(m), k - 1)
    ensures PulledIn(m, k) == PulledIn(m, 1) + PulledIn(Next(m), k - 1)
  {
    hide Next, Ready, PushedBytes, PulledCount;
    assert PushedIn(Next(m), 0) == 0 && PulledIn(Next(m), 0) == 0;
  }

  lemma WrapAgain(a: int, b: int)
    ensures (a % 0x100 + b) % 0x100 == (a + b) % 0x100
  {
  }

  /** Conservation: along any run without TXS, S is its start value less the bytes
      pushed plus the bytes pulled, modulo 256. */
  lemma {:induction false} StackConserved(m: Machine, k: nat)
    requires NoTxs(m, k)
    ensures Iterate(m, k).s == (m.s - PushedIn(m, k) + PulledIn(m, k)) % 0x100
    decreases k
  {
    hide Next, Ready, PushedIn, PulledIn;
    if k == 0 {
      CountsNothing(m);
    } else {
      StepMovesS(m);
      StackConserved(Next(m), k - 1);
      FirstStepCounts(m, k);
      WrapAgain(m.s - PushedIn(m, 1) + PulledIn(m, 1), PulledIn(Next(m), k - 1) - PushedIn(Next(m), k - 1));
    }
  }
}
