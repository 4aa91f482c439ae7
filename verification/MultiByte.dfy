/** Arithmetic on numbers of any length, one opcode per byte (6502isa.cpp: ADC, SBC,
    CMP, ROL, ROR, ASL, LSR). Numbers are byte sequences, least significant first. */
module MultiByte {
  import opened Bytes
  import opened Status
  import opened Alu
  import opened InstructionSet
  import opened MachineModel

  // ---------------------------------------------------------------- numbers

  function Val(xs: seq<byte>): nat {
    if xs == [] then 0 else xs[0] + 0x100 * Val(xs[1..])
  }

  /** 256 to the power `n`. */
  function Pow(n: nat): (p: nat)
    ensures p > 0
  {
    if n == 0 then 1 else 0x100 * Pow(n - 1)
  }

  /** The two's-complement reading. */
  function SVal(xs: seq<byte>): int
    requires xs != []
  {
    if |xs| == 1 then Signed(xs[0]) else xs[0] + 0x100 * SVal(xs[1..])
  }

  /** Half of 256 to the power `n`. */
  function Half(n: nat): (h: nat)
    requires n > 0
    ensures h > 0
  {
    0x80 * Pow(n - 1)
  }

  predicate FitsIn(v: int, n: nat)
    requires n > 0
  {
    0 - Half(n) <= v < Half(n)
  }

  lemma ValFirst(xs: seq<byte>)
    requires xs != []
    ensures Val(xs) == xs[0] + 0x100 * Val(xs[1..])
  {
  }

  lemma {:induction false} ValBound(xs: seq<byte>)
    ensures Val(xs) < Pow(|xs|)
  {
    if xs == [] {
    } else {
      ValBound(xs[1..]);
    }
  }

  /** The two readings differ by 256^n exactly when the top bit is set. */
  lemma {:induction false} SValMeaning(xs: seq<byte>)
    requires xs != []
    ensures SVal(xs) == Val(xs) - if xs[|xs| - 1] >= 0x80 then Pow(|xs|) else 0
    ensures FitsIn(SVal(xs), |xs|)
  {
    if |xs| == 1 {
      assert xs[1..] == [];
      assert Pow(1) == 0x100 * Pow(0);
    } else {
      SValMeaning(xs[1..]);
      assert Half(|xs|) == 0x100 * Half(|xs| - 1);
    }
  }

  // ---------------------------------------------------------------- running one opcode over bytes

  /** The machine with `x` in A and `y` as the operand, in cell 0. A load would also have
      set N and Z, which none of these opcodes reads. */
  function Feed(m: Machine, x: byte, y: byte): Machine {
    m.(a := x, mem := m.mem[0 := y])
  }

  /** One opcode applied to each pair of bytes, low bytes first, the flags of one step
      feeding the next: the machine in the end, and A after each step. */
  function Chain(m: Machine, op: Operation, xs: seq<byte>, ys: seq<byte>): (r: (Machine, seq<byte>))
    requires |xs| == |ys|
    ensures |r.1| == |xs|
    decreases |xs|
  {
    if xs == [] then (m, [])
    else
      var after := Exec(Feed(m, xs[0], ys[0]), op, 0).m;
      var (last, zs) := Chain(after, op, xs[1..], ys[1..]);
      (last, [after.a] + zs)
  }

  lemma AdcStep(m: Machine, x: byte, y: byte)
    ensures var after := Exec(Feed(m, x, y), Adc, 0).m;
            var r := Adc8(x, y, m.p.c);
            after.a == r.value && after.p.c == r.carry && after.p.v == r.overflow && after.p.n == (r.value >= 0x80)
  {
    hide Adc8;
  }

  lemma SbcStep(m: Machine, x: byte, y: byte)
    ensures var after := Exec(Feed(m, x, y), Sbc, 0).m;
            var r := Sbc8(x, y, m.p.c);
            after.a == r.value && after.p.c == r.carry && after.p.v == r.overflow && after.p.n == (r.value >= 0x80)
  {
    hide Sbc8;
  }

  /** One byte of each operation read as signed. */
  lemma SignsOfByte(x: byte, y: byte, c: bool)
    ensures Adc8(x, y, c).overflow <==> !FitsIn(Signed(x) + Signed(y) + Num(c), 1)
    ensures var r := Sbc8(x, y, c);
            var d := Signed(x) - Signed(y) - Num(!c);
            && (r.overflow <==> !FitsIn(d, 1))
            && ((r.value >= 0x80) != r.overflow <==> d < 0)
  {
    assert Half(1) == 0x80;
  }

  lemma SValFirst(xs: seq<byte>)
    requires xs != []
    ensures SVal(xs) == if |xs| == 1 then Signed(xs[0]) else xs[0] + 0x100 * SVal(xs[1..])
  {
  }

  /** A carry into the upper bytes counts 256 times there. */
  lemma NextWeight(n: nat, c: bool)
    requires n > 0
    ensures Pow(n) * Num(c) == 0x100 * (Pow(n - 1) * Num(c))
  {
  }

  /** A low byte does not decide whether a number fits. */
  lemma FitsAbove(low: byte, d: int, n: nat)
    requires n > 1
    ensures FitsIn(low + 0x100 * d, n) <==> FitsIn(d, n - 1)
  {
    assert Half(n) == 0x100 * Half(n - 1);
  }

  // ---------------------------------------------------------------- addition

  /** n-byte addition: the bytes and the last carry are the sum of the two numbers and
      the first carry. */
  lemma {:induction false} AdcAdds(m: Machine, xs: seq<byte>, ys: seq<byte>)
    requires |xs| == |ys|
    ensures var (after, zs) := Chain(m, Adc, xs, ys);
            Val(zs) + Pow(|xs|) * Num(after.p.c) == Val(xs) + Val(ys) + Num(m.p.c)
    decreases |xs|
  {
    hide Exec, Feed, Adc8;
    if xs == [] {
    } else {
      hide Pow, Num;
      AdcStep(m, xs[0], ys[0]);
      ByteAdded(xs[0], ys[0], m.p.c);
      var first := Exec(Feed(m, xs[0], ys[0]), Adc, 0).m;
      AdcAdds(first, xs[1..], ys[1..]);
      var (after, zs) := Chain(m, Adc, xs, ys);
      assert zs[1..] == Chain(first, Adc, xs[1..], ys[1..]).1;
      NextWeight(|xs|, after.p.c);
    }
  }

  /** The last V is set exactly when the two's-complement sum does not fit in n bytes. */
  lemma {:induction false} AdcOverflows(m: Machine, xs: seq<byte>, ys: seq<byte>)
    requires |xs| == |ys| && xs != []
    ensures var (after, _) := Chain(m, Adc, xs, ys);
            after.p.v <==> !FitsIn(SVal(xs) + SVal(ys) + Num(m.p.c), |xs|)
    decreases |xs|
  {
    hide Exec, Feed, Adc8, FitsIn, Num, SVal;
    AdcStep(m, xs[0], ys[0]);
    var first := Exec(Feed(m, xs[0], ys[0]), Adc, 0).m;
    SValFirst(xs);
    SValFirst(ys);
    if |xs| == 1 {
      assert Chain(first, Adc, xs[1..], ys[1..]).0 == first;
      SignsOfByte(xs[0], ys[0], m.p.c);
    } else {
      ByteAdded(xs[0], ys[0], m.p.c);
      AdcOverflows(first, xs[1..], ys[1..]);
      FitsAbove(first.a, SVal(xs[1..]) + SVal(ys[1..]) + Num(first.p.c), |xs|);
    }
  }

  // ---------------------------------------------------------------- subtraction

  /** n-byte subtraction, with the carry as inverted borrow at both ends. */
  lemma {:induction false} SbcSubtracts(m: Machine, xs: seq<byte>, ys: seq<byte>)
    requires |xs| == |ys|
    ensures var (after, zs) := Chain(m, Sbc, xs, ys);
            Val(zs) - Pow(|xs|) * Num(!after.p.c) == Val(xs) - Val(ys) - Num(!m.p.c)
    decreases |xs|
  {
    hide Exec, Feed, Sbc8;
    if xs == [] {
    } else {
      hide Pow, Num;
      SbcStep(m, xs[0], ys[0]);
      ByteSubtracted(xs[0], ys[0], m.p.c);
      var first := Exec(Feed(m, xs[0], ys[0]), Sbc, 0).m;
      SbcSubtracts(first, xs[1..], ys[1..]);
      var (after, zs) := Chain(m, Sbc, xs, ys);
      assert zs[1..] == Chain(first, Sbc, xs[1..], ys[1..]).1;
      NextWeight(|xs|, !after.p.c);
    }
  }

  /** The last V tells whether the signed difference fits, and N differs from V exactly
      when it is negative. */
  lemma {:induction false} SbcSigns(m: Machine, xs: seq<byte>, ys: seq<byte>)
    requires |xs| == |ys| && xs != []
    ensures var (after, _) := Chain(m, Sbc, xs, ys);
            var d := SVal(xs) - SVal(ys) - Num(!m.p.c);
            && (after.p.v <==> !FitsIn(d, |xs|))
            && (after.p.n != after.p.v <==> d < 0)
    decreases |xs|
  {
    hide Exec, Feed, Sbc8, FitsIn, Num, SVal;
    SbcStep(m, xs[0], ys[0]);
    var first := Exec(Feed(m, xs[0], ys[0]), Sbc, 0).m;
    SValFirst(xs);
    SValFirst(ys);
    if |xs| == 1 {
      assert Chain(first, Sbc, xs[1..], ys[1..]).0 == first;
      SignsOfByte(xs[0], ys[0], m.p.c);
    } else {
      ByteSubtracted(xs[0], ys[0], m.p.c);
      SbcSigns(first, xs[1..], ys[1..]);
      FitsAbove(first.a, SVal(xs[1..]) - SVal(ys[1..]) - Num(!first.p.c), |xs|);
    }
  }

  /** SBC of a byte and ADC of its complement leave the same machine: A, C, V, N and Z. */
  lemma SbcMatchesAdc(m: Machine, x: byte, y: byte)
    ensures var sub := Exec(Feed(m, x, y), Sbc, 0).m;
            var add := Exec(Feed(m, x, 0xFF - y), Adc, 0).m;
            sub.a == add.a && sub.p == add.p
  {
    SbcIsAdcOfComplement(x, y, m.p.c);
  }

  lemma UndoByte(x: byte, y: byte, c: bool)
    ensures var added := Adc8(x, y, c);
            var undone := Sbc8(added.value, y, !c);
            undone.value == x && undone.carry == !added.carry
  {
  }

  /** Adding a number and subtracting it again, the borrow being the carry of the
      addition inverted at the start, gives the number back, and the borrow is the carry
      inverted at the end. */
  lemma {:induction false} SbcUndoesAdc(m: Machine, n: Machine, xs: seq<byte>, ys: seq<byte>)
    requires |xs| == |ys| && n.p.c == !m.p.c
    ensures var (added, zs) := Chain(m, Adc, xs, ys);
            var (subtracted, ws) := Chain(n, Sbc, zs, ys);
            ws == xs && subtracted.p.c == !added.p.c
    decreases |xs|
  {
    hide Exec, Adc8, Sbc8;
    if xs == [] {
    } else {
      UndoByte(xs[0], ys[0], m.p.c);
      AdcStep(m, xs[0], ys[0]);
      var added := Exec(Feed(m, xs[0], ys[0]), Adc, 0).m;
      SbcStep(n, added.a, ys[0]);
      var undone := Exec(Feed(n, added.a, ys[0]), Sbc, 0).m;
      var (_, zs) := Chain(m, Adc, xs, ys);
      assert zs[0] == added.a && zs[1..] == Chain(added, Adc, xs[1..], ys[1..]).1;
      SbcUndoesAdc(added, undone, xs[1..], ys[1..]);
    }
  }

  // ---------------------------------------------------------------- comparison

  /** CMP on the lowest byte, then SBC on the others. */
  function CompareChain(m: Machine, xs: seq<byte>, ys: seq<byte>): Machine
    requires |xs| == |ys| && xs != []
  {
    Chain(Exec(Feed(m, xs[0], ys[0]), Cmp, 0).m, Sbc, xs[1..], ys[1..]).0
  }

  lemma CmpStep(m: Machine, x: byte, y: byte)
    ensures Exec(Feed(m, x, y), Cmp, 0).m.p.c == (x >= y)
  {
  }

  /** C is set exactly when x >= y unsigned. */
  lemma ComparesUnsigned(m: Machine, xs: seq<byte>, ys: seq<byte>)
    requires |xs| == |ys| && xs != []
    ensures CompareChain(m, xs, ys).p.c <==> Val(xs) >= Val(ys)
  {
    hide Exec, Chain, Val, Pow, Feed;
    CmpStep(m, xs[0], ys[0]);
    var first := Exec(Feed(m, xs[0], ys[0]), Cmp, 0).m;
    SbcSubtracts(first, xs[1..], ys[1..]);
    var (after, zs) := Chain(first, Sbc, xs[1..], ys[1..]);
    ValBound(zs);
    assert Pow(|xs| - 1) * Num(!after.p.c) == if after.p.c then 0 else Pow(|xs| - 1);
    assert after.p.c <==> Val(xs[1..]) - Val(ys[1..]) - Num(!first.p.c) >= 0;
    ValFirst(xs);
    ValFirst(ys);
  }

  /** From two bytes up, N differs from V exactly when x < y signed. */
  lemma ComparesSigned(m: Machine, xs: seq<byte>, ys: seq<byte>)
    requires |xs| == |ys| >= 2
    ensures CompareChain(m, xs, ys).p.n != CompareChain(m, xs, ys).p.v <==> SVal(xs) < SVal(ys)
  {
    hide Exec, Chain;
    CmpStep(m, xs[0], ys[0]);
    SbcSigns(Exec(Feed(m, xs[0], ys[0]), Cmp, 0).m, xs[1..], ys[1..]);
  }

  // ---------------------------------------------------------------- rotates

  /** A memory opcode applied to each byte in cell 0, low byte first. */
  function ShiftUp(m: Machine, op: Operation, xs: seq<byte>): (r: (Machine, seq<byte>))
    ensures |r.1| == |xs|
    decreases |xs|
  {
    if xs == [] then (m, [])
    else
      var after := Exec(m.(mem := m.mem[0 := xs[0]]), op, 0).m;
      var (last, zs) := ShiftUp(after, op, xs[1..]);
      (last, [after.mem[0]] + zs)
  }

  /** The same from the high byte down. */
  function ShiftDown(m: Machine, op: Operation, xs: seq<byte>): (r: (Machine, seq<byte>))
    ensures |r.1| == |xs|
    decreases |xs|
  {
    if xs == [] then (m, [])
    else
      var (above, zs) := ShiftDown(m, op, xs[1..]);
      var after := Exec(above.(mem := above.mem[0 := xs[0]]), op, 0).m;
      (after, [after.mem[0]] + zs)
  }

  lemma RolStep(m: Machine, x: byte)
    ensures var after := Exec(m.(mem := m.mem[0 := x]), Rol, 0).m;
            after.mem[0] == Rol8(x, m.p.c).value && after.p.c == Rol8(x, m.p.c).carry
  {
    hide Rol8;
  }

  lemma RorStep(m: Machine, x: byte)
    ensures var after := Exec(m.(mem := m.mem[0 := x]), Ror, 0).m;
            after.mem[0] == Ror8(x, m.p.c).value && after.p.c == Ror8(x, m.p.c).carry
  {
    hide Ror8;
  }

  /** n-byte ROL doubles the number and takes the carry in and out. */
  lemma {:induction false} RolDoubles(m: Machine, xs: seq<byte>)
    ensures var (after, zs) := ShiftUp(m, Rol, xs);
            Val(zs) + Pow(|xs|) * Num(after.p.c) == 2 * Val(xs) + Num(m.p.c)
    decreases |xs|
  {
    hide Exec, Rol8;
    if xs == [] {
    } else {
      hide Pow, Num;
      RolStep(m, xs[0]);
      ByteDoubled(xs[0], m.p.c);
      var first := Exec(m.(mem := m.mem[0 := xs[0]]), Rol, 0).m;
      RolDoubles(first, xs[1..]);
      var (after, zs) := ShiftUp(m, Rol, xs);
      assert zs[1..] == ShiftUp(first, Rol, xs[1..]).1;
      NextWeight(|xs|, after.p.c);
    }
  }

  /** n-byte ROR, from the high byte down, undoes n-byte ROL: the bytes and the carry. */
  lemma {:induction false} RorUndoesRol(m: Machine, n: Machine, xs: seq<byte>)
    requires n.p.c == ShiftUp(m, Rol, xs).0.p.c
    ensures var (after, ws) := ShiftDown(n, Ror, ShiftUp(m, Rol, xs).1);
            ws == xs && after.p.c == m.p.c
    decreases |xs|
  {
    hide Exec;
    if xs == [] {
    } else {
      RolStep(m, xs[0]);
      var first := Exec(m.(mem := m.mem[0 := xs[0]]), Rol, 0).m;
      var (_, zs) := ShiftUp(m, Rol, xs);
      assert zs[0] == first.mem[0] && zs[1..] == ShiftUp(first, Rol, xs[1..]).1;
      RorUndoesRol(first, n, xs[1..]);
      var (above, _) := ShiftDown(n, Ror, zs[1..]);
      RorStep(above, zs[0]);
    }
  }

  /** And n-byte ROL undoes n-byte ROR. */
  lemma {:induction false} RolUndoesRor(m: Machine, n: Machine, xs: seq<byte>)
    requires n.p.c == ShiftDown(m, Ror, xs).0.p.c
    ensures var (after, ws) := ShiftUp(n, Rol, ShiftDown(m, Ror, xs).1);
            ws == xs && after.p.c == m.p.c
    decreases |xs|
  {
    hide Exec;
    if xs == [] {
    } else {
      var (above, higher) := ShiftDown(m, Ror, xs[1..]);
      RorStep(above, xs[0]);
      var (_, zs) := ShiftDown(m, Ror, xs);
      assert zs[1..] == higher;
      RolStep(n, zs[0]);
      var first := Exec(n.(mem := n.mem[0 := zs[0]]), Rol, 0).m;
      RolUndoesRor(m, first, xs[1..]);
    }
  }

  lemma RolEffect(m: Machine, addr: word)
    ensures var after := Shift(m, Asl, addr);
            after.mem == m.mem[addr := Rol8(m.mem[addr], false).value] && after.p.c == Rol8(m.mem[addr], false).carry
    ensures var after := Shift(m, Rol, addr);
            after.mem == m.mem[addr := Rol8(m.mem[addr], m.p.c).value] && after.p.c == Rol8(m.mem[addr], m.p.c).carry
  {
    hide Rol8;
  }

  lemma RolAEffect(m: Machine, addr: word)
    ensures var after := Shift(m, AslA, addr);
            after.a == Rol8(m.a, false).value && after.p.c == Rol8(m.a, false).carry
    ensures var after := Shift(m, RolA, addr);
            after.a == Rol8(m.a, m.p.c).value && after.p.c == Rol8(m.a, m.p.c).carry
  {
    hide Rol8;
  }

  /** ASL is ROL of a clear carry, in the value and the carry. */
  lemma AslIsRol(m: Machine, addr: word)
    requires !m.p.c
    ensures var asl, rol := Exec(m, Asl, addr).m, Exec(m, Rol, addr).m; asl.mem == rol.mem && asl.p.c == rol.p.c
    ensures var asl, rol := Exec(m, AslA, addr).m, Exec(m, RolA, addr).m; asl.a == rol.a && asl.p.c == rol.p.c
  {
    hide Rol8, Shift;
    RolEffect(m, addr);
    RolAEffect(m, addr);
  }

  lemma LsrEffect(m: Machine, addr: word)
    ensures var after := Shift(m, Lsr, addr);
            after.mem == m.mem[addr := Ror8(m.mem[addr], false).value] && after.p.c == Ror8(m.mem[addr], false).carry
    ensures var after := Shift(m, LsrA, addr);
            after.a == Ror8(m.a, false).value && after.p.c == Ror8(m.a, false).carry
  {
    hide Ror8;
  }

  lemma RorEffect(m: Machine, addr: word)
    ensures var after := Shift(m, Ror, addr);
            after.mem == m.mem[addr := Ror8(m.mem[addr], m.p.c).value] && after.p.c == Ror8(m.mem[addr], m.p.c).carry
  {
    hide Ror8;
  }

  lemma RorAEffect(m: Machine, addr: word)
    ensures var after := Shift(m, RorA, addr);
            after.a == Ror8(m.a, m.p.c).value && after.p.c == Ror8(m.a, m.p.c).carry
  {
    hide Ror8;
  }

  /** LSR is ROR of a clear carry, in the value and the carry. */
  lemma LsrIsRor(m: Machine, addr: word)
    requires !m.p.c
    ensures var lsr, ror := Exec(m, Lsr, addr).m, Exec(m, Ror, addr).m; lsr.mem == ror.mem && lsr.p.c == ror.p.c
    ensures var lsr, ror := Exec(m, LsrA, addr).m, Exec(m, RorA, addr).m; lsr.a == ror.a && lsr.p.c == ror.p.c
  {
    hide Ror8, Shift, Flags.OfValue;
    LsrEffect(m, addr);
    RorEffect(m, addr);
    RorAEffect(m, addr);
  }
}
