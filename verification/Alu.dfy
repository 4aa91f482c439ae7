/** The 8-bit arithmetic of ADC, SBC, the compares and the rotates: what it means
    in plain integers, and the flag formulas the program uses to get there. */
module Alu {
  import opened Bytes

  datatype Sum = Sum(value: byte, carry: bool, overflow: bool)

  predicate FitsSigned(v: int) {
    -0x80 <= v < 0x80
  }

  /** Addition with carry: the unsigned sum and its carry-out, and whether the
      signed sum leaves the range of a byte. */
  function Adc8(a: byte, m: byte, c: bool): Sum {
    var total := a + m + Num(c);
    Sum(total % 0x100, total >= 0x100, !FitsSigned(Signed(a) + Signed(m) + Num(c)))
  }

  /** Subtraction with borrow; the carry is the inverted borrow. */
  function Sbc8(a: byte, m: byte, c: bool): Sum {
    var total := a - m - Num(!c);
    Sum(total % 0x100, total >= 0, !FitsSigned(Signed(a) - Signed(m) - Num(!c)))
  }

  datatype Shifted = Shifted(value: byte, carry: bool)

  function Rol8(v: byte, c: bool): Shifted {
    Shifted((2 * v + Num(c)) % 0x100, v >= 0x80)
  }

  function Ror8(v: byte, c: bool): Shifted {
    Shifted(v / 2 + 0x80 * Num(c), v % 2 == 1)
  }

  /** One byte of each operation, as an equation between integers. */
  lemma ByteAdded(x: byte, y: byte, c: bool)
    ensures Adc8(x, y, c).value + 0x100 * Num(Adc8(x, y, c).carry) == x + y + Num(c)
  {
  }

  lemma ByteSubtracted(x: byte, y: byte, c: bool)
    ensures Sbc8(x, y, c).value - 0x100 * Num(!Sbc8(x, y, c).carry) == x - y - Num(!c)
  {
  }

  lemma ByteDoubled(x: byte, c: bool)
    ensures Rol8(x, c).value + 0x100 * Num(Rol8(x, c).carry) == 2 * x + Num(c)
  {
  }

  lemma ByteHalved(x: byte, c: bool)
    ensures 2 * Ror8(x, c).value + Num(Ror8(x, c).carry) == x + 0x100 * Num(c)
  {
  }

  // ------------------------------------------------ the formulas of the program

  /** ADC's overflow: both operands have one sign and the result the other. */
  predicate AdcOverflow(a: byte, m: byte, r: byte) {
    (!IsNegative(m) && !IsNegative(a) && IsNegative(r)) || (IsNegative(m) && IsNegative(a) && !IsNegative(r))
  }

  /** SBC's overflow: `((a ^ r) & (a ^ m) & 0x80) != 0`. */
  predicate SbcOverflow(a: byte, m: byte, r: byte) {
    BitAnd(BitAnd(BitXor(a, r), BitXor(a, m)), 0x80) != 0
  }

  lemma AdcOverflowMeaning(a: byte, m: byte, c: bool)
    ensures AdcOverflow(a, m, Adc8(a, m, c).value) == Adc8(a, m, c).overflow
  {
    var r := Adc8(a, m, c).value;
    assert r == a + m + Num(c) || r == a + m + Num(c) - 0x100;
    NegativeMeaning(a);
    NegativeMeaning(m);
    NegativeMeaning(r);
  }

  lemma SbcOverflowMeaning(a: byte, m: byte, c: bool)
    ensures SbcOverflow(a, m, Sbc8(a, m, c).value) == Sbc8(a, m, c).overflow
  {
    var r := Sbc8(a, m, c).value;
    assert r == a - m - Num(!c) || r == a - m - Num(!c) + 0x100;
    var x, y := BitXor(a, r), BitXor(a, m);
    NegativeMeaning(BitAnd(x, y));
    BitwiseBit(AndGate, x, y, 7);
    BitwiseBit(XorGate, a, r, 7);
    BitwiseBit(XorGate, a, m, 7);
    NegativeMeaning(a);
    NegativeMeaning(m);
    NegativeMeaning(r);
  }

  /** `a + m + c` through `byte_result`, with the sign test, is addition with carry. */
  lemma AdcFormulas(a: byte, m: byte, c: bool)
    ensures var r := AddResult(AddByte(a, m), Num(c));
            Adc8(a, m, c) == Sum(r.value, r.carry, AdcOverflow(a, m, r.value))
  {
    hide AddByte, AddResult, AdcOverflow;
    AdcOverflowMeaning(a, m, c);
    var s := AddByte(a, m);
    assert (s.value + Num(c)) % 0x100 == (a + m + Num(c)) % 0x100;
  }

  /** The exclusive-or test, with the 16-bit difference, is subtraction with borrow. */
  lemma SbcFormulas(a: byte, m: byte, c: bool)
    ensures var r := ((a - m - Num(!c)) % 0x1_0000) % 0x100;
            Sbc8(a, m, c) == Sum(r, a >= m + Num(!c), SbcOverflow(a, m, r))
  {
    var d := a - m - Num(!c);
    var r := (d % 0x1_0000) % 0x100;
    assert r == Sbc8(a, m, c).value by {
      assert d % 0x1_0000 == if d < 0 then 0x1_0000 + d else d;
    }
    SbcOverflowMeaning(a, m, c);
  }

  /** SBC of `m` is ADC of its complement, in value, carry and overflow alike. */
  lemma SbcIsAdcOfComplement(a: byte, m: byte, c: bool)
    ensures Sbc8(a, m, c) == Adc8(a, 0xFF - m, c)
  {
  }

  lemma OrOfEven(h: nat, c: bool)
    requires h < 0x80
    ensures BitOr(2 * h, Num(c)) == 2 * h + Num(c)
  {
    OrOfDisjoint(2 * h, Num(c));
    NothingCommon(2 * h);
    assert Mask(0) == 1;
    NoCommonBit(2 * h, 0);
  }

  lemma RolFormulas(v: byte, c: bool)
    ensures Rol8(v, c) == Shifted(BitOr(ShiftLeft(v), Num(c)), BitAnd(v, 0x80) != 0)
  {
    NegativeMeaning(v);
    var w := (v * 2) % 0x100;
    var h := if v >= 0x80 then v - 0x80 else v;
    assert w == 2 * h;
    OrOfEven(h, c);
  }

  lemma RorFormulas(v: byte, c: bool)
    ensures Ror8(v, c) == Shifted(BitOr(ShiftRight(v), Num(c) * 0x80), BitAnd(v, 0x01) != 0)
  {
    assert Mask(0) == 1 && Mask(7) == 0x80;
    IsBitSetMeaning(v, 0);
    OrOfDisjoint(v / 2, Num(c) * 0x80);
    NothingCommon(v / 2);
    TopBit(v / 2, 7);
    NoCommonBit(v / 2, 7);
  }

  /** ASL and LSR compute what a rotate of a clear carry computes. */
  lemma ShiftFormulas(v: byte)
    ensures Rol8(v, false) == Shifted(ShiftLeft(v), BitAnd(v, 0x80) != 0)
    ensures Ror8(v, false) == Shifted(ShiftRight(v), BitAnd(v, 0x01) == 1)
  {
    NegativeMeaning(v);
    OneBit(v);
  }

  lemma OneBit(v: byte)
    ensures BitAnd(v, 0x01) == v % 2
  {
    NothingCommon(v / 2);
  }

  lemma NoCommonBit(v: byte, k: nat)
    requires k < 8 && !Bit(v, k)
    ensures BitAnd(v, Mask(k)) == 0
  {
    IsBitSetMeaning(v, k);
  }

  lemma {:induction false} NothingCommon(a: nat)
    ensures Bitwise(AndGate, a, 0) == 0
  {
    if a == 0 {
    } else {
      NothingCommon(a / 2);
    }
  }

  /** Or of two numbers without a common bit is their sum. */
  lemma {:induction false} OrOfDisjoint(a: nat, b: nat)
    ensures Bitwise(OrGate, a, b) + Bitwise(AndGate, a, b) == a + b
    decreases a + b
  {
    if a + b == 0 {
    } else {
      OrOfDisjoint(a / 2, b / 2);
    }
  }
}
