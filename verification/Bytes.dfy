/** Bytes and 16-bit addresses as the simulator computes with them
    (byte_utils.h and address.h). A `std::byte` is an integer below 256; every
    place where the C++ truncates is written out as a remainder. */
module Bytes {
  type byte = x: int | 0 <= x < 0x100
  type word = x: int | 0 <= x < 0x1_0000

  function Num(b: bool): (n: nat) {
    if b then 1 else 0
  }

  // ---------------------------------------------------------------- bits

  /** Bit `k` of `n`, counting from the least significant. */
  predicate Bit(n: nat, k: nat)
    decreases k, n
  {
    if k == 0 then n % 2 == 1 else Bit(n / 2, k - 1)
  }

  function Pow2(k: nat): (p: nat)
    ensures p > 0
  {
    if k == 0 then 1 else 2 * Pow2(k - 1)
  }

  datatype Gate = AndGate | OrGate | XorGate
  {
    predicate Apply(x: bool, y: bool) {
      match this
      case AndGate => x && y
      case OrGate => x || y
      case XorGate => x != y
    }
  }

  /** One gate applied to every bit of two numbers. */
  function Bitwise(g: Gate, a: nat, b: nat): nat
    decreases a + b
  {
    if a == 0 && b == 0 then 0
    else Num(g.Apply(a % 2 == 1, b % 2 == 1)) + 2 * Bitwise(g, a / 2, b / 2)
  }

  lemma {:induction false} BitwiseBit(g: Gate, a: nat, b: nat, k: nat)
    ensures Bit(Bitwise(g, a, b), k) == g.Apply(Bit(a, k), Bit(b, k))
    decreases k
  {
    ZeroBit(k);
    var rest := Bitwise(g, a / 2, b / 2);
    var low := Num(g.Apply(a % 2 == 1, b % 2 == 1));
    assert Bitwise(g, a, b) == low + 2 * rest;
    assert (low + 2 * rest) / 2 == rest && (low + 2 * rest) % 2 == low;
    if k == 0 {
    } else {
      BitwiseBit(g, a / 2, b / 2, k - 1);
    }
  }

  lemma {:induction false} BitwiseBound(g: Gate, a: nat, b: nat, w: nat)
    requires a < Pow2(w) && b < Pow2(w)
    ensures Bitwise(g, a, b) < Pow2(w)
    decreases w
  {
    if w == 0 {
    } else {
      BitwiseBound(g, a / 2, b / 2, w - 1);
    }
  }

  function BitAnd(a: byte, b: byte): byte {
    BitwiseBound(AndGate, a, b, 8);
    Bitwise(AndGate, a, b)
  }

  function BitOr(a: byte, b: byte): byte {
    BitwiseBound(OrGate, a, b, 8);
    Bitwise(OrGate, a, b)
  }

  function BitXor(a: byte, b: byte): byte {
    BitwiseBound(XorGate, a, b, 8);
    Bitwise(XorGate, a, b)
  }

  /** The complement `~b` of a byte. */
  function BitNot(b: byte): byte {
    0xFF - b
  }

  lemma {:induction false} Pow2Grows(j: nat, k: nat)
    requires j <= k
    ensures Pow2(j) <= Pow2(k)
    decreases k
  {
    if j == k {
    } else {
      Pow2Grows(j, k - 1);
    }
  }

  /** `b << 1` on a `std::byte` drops the bit shifted out. */
  function ShiftLeft(b: byte): byte {
    (b * 2) % 0x100
  }

  /** `b >> 1`. */
  function ShiftRight(b: byte): byte {
    b / 2
  }

  /** `std::byte(1 << k)` for a bit number of a byte. */
  function Mask(k: nat): (m: byte)
    requires k < 8
  {
    Pow2Grows(k, 7);
    assert Pow2(7) == 0x80;
    Pow2(k)
  }

  lemma {:induction false} Pow2Bit(k: nat, j: nat)
    ensures Bit(Pow2(k), j) == (j == k)
    decreases k + j
  {
    if k == 0 {
      ZeroBit(j);
      assert Bit(1, j) == (if j == 0 then true else Bit(0, j - 1));
      if j > 0 {
        ZeroBit(j - 1);
      }
    } else if j > 0 {
      assert Pow2(k) / 2 == Pow2(k - 1);
      Pow2Bit(k - 1, j - 1);
    }
  }

  lemma {:induction false} NotBit(b: nat, w: nat, k: nat)
    requires b < Pow2(w) && k < w
    ensures Pow2(w) - 1 - b >= 0
    ensures Bit(Pow2(w) - 1 - b, k) == !Bit(b, k)
    decreases k
  {
    var c := Pow2(w) - 1 - b;
    var h := Pow2(w - 1);
    assert Pow2(w) == 2 * h;
    assert c / 2 == h - 1 - b / 2;
    assert c % 2 == 1 - b % 2;
    if k == 0 {
    } else {
      NotBit(b / 2, w - 1, k - 1);
    }
  }

  /** A number of `w` bits is determined by them. */
  lemma {:induction false} SameBits(a: nat, b: nat, w: nat)
    requires a < Pow2(w) && b < Pow2(w)
    requires forall k: nat | k < w :: Bit(a, k) == Bit(b, k)
    ensures a == b
  {
    if w == 0 {
    } else {
      assert Bit(a, 0) == Bit(b, 0);
      forall k: nat | k < w - 1
        ensures Bit(a / 2, k) == Bit(b / 2, k)
      {
        assert Bit(a, k + 1) == Bit(b, k + 1);
      }
      SameBits(a / 2, b / 2, w - 1);
    }
  }

  lemma {:induction false} TopBit(n: nat, w: nat)
    requires n < Pow2(w + 1)
    ensures Bit(n, w) == (n >= Pow2(w))
    decreases w
  {
    if w == 0 {
    } else {
      TopBit(n / 2, w - 1);
    }
  }

  lemma ZeroBit(k: nat)
    ensures !Bit(0, k)
    decreases k
  {
  }

  /** `is_bit_set`: a byte masked with `1 << k` is non-zero exactly when its bit `k` is set. */
  predicate IsBitSet(b: byte, k: nat)
    requires k < 8
  {
    BitAnd(b, Mask(k)) != 0
  }

  lemma {:induction false} IsBitSetMeaning(b: byte, k: nat)
    requires k < 8
    ensures IsBitSet(b, k) == Bit(b, k)
  {
    var r := BitAnd(b, Mask(k));
    forall j: nat | j < 8
      ensures Bit(r, j) == (j == k && Bit(b, k))
    {
      BitwiseBit(AndGate, b, Mask(k), j);
      Pow2Bit(k, j);
    }
    ZeroBit(k);
    if !Bit(b, k) {
      forall j: nat | j < 8
        ensures Bit(r, j) == Bit(0, j)
      {
        ZeroBit(j);
      }
      SameBits(r, 0, 8);
    }
  }

  /** `is_negative`: the sign bit of a byte read as two's complement. */
  predicate IsNegative(b: byte) {
    BitAnd(b, 0x80) != 0
  }

  lemma NegativeMeaning(b: byte)
    ensures IsNegative(b) == Bit(b, 7) == (b >= 0x80)
  {
    assert Pow2(7) == 0x80 && Pow2(8) == 0x100;
    IsBitSetMeaning(b, 7);
    TopBit(b, 7);
  }

  /** The signed reading of a byte, `static_cast<int8_t>`. */
  function Signed(b: byte): (v: int)
    ensures -0x80 <= v < 0x80
  {
    if b < 0x80 then b else b - 0x100
  }

  // ---------------------------------------------------------------- byte_result

  datatype ByteResult = ByteResult(value: byte, carry: bool, negative: bool)

  /** `byte + byte` and `byte + int`. */
  function AddByte(a: byte, b: byte): (r: ByteResult)
    ensures r.value + 0x100 * Num(r.carry) == a + b
    ensures r.value == (a + b) % 0x100
    ensures r.negative == (r.value >= 0x80)
  {
    var result := a + b;
    var value := result % 0x100;
    NegativeMeaning(value);
    ByteResult(value, result > 0xFF, IsNegative(value))
  }

  /** `byte - byte` and `byte - int`: the carry of the result is the borrow. */
  function SubByte(a: byte, b: byte): (r: ByteResult)
    ensures r.value == a - b + 0x100 * Num(r.carry)
    ensures r.negative == (r.value >= 0x80)
  {
    var result := (a - b) % 0x1_0000;
    var value := result % 0x100;
    assert result == if a < b then 0x1_0000 + a - b else a - b;
    NegativeMeaning(value);
    ByteResult(value, a < b, IsNegative(value))
  }

  /** `byte_result + int`: a carry already there is kept. */
  function AddResult(a: ByteResult, b: byte): (r: ByteResult)
    ensures r.value + 0x100 * Num(a.value + b >= 0x100) == a.value + b
    ensures r.carry == (a.carry || a.value + b >= 0x100)
    ensures r.negative == (r.value >= 0x80)
  {
    var result := a.value + b;
    var value := result % 0x100;
    NegativeMeaning(value);
    ByteResult(value, result > 0xFF || a.carry, IsNegative(value))
  }

  // ---------------------------------------------------------------- address

  datatype AddressResult = AddressResult(value: word, carry: bool)

  function Low(a: word): byte {
    a % 0x100
  }

  function High(a: word): byte {
    a / 0x100
  }

  /** `address(low, high)`. */
  function Join(low: byte, high: byte): (a: word)
    ensures Low(a) == low && High(a) == high
    ensures a == low + 0x100 * high
  {
    high * 0x100 + low
  }

  lemma JoinSplit(a: word)
    ensures Low(a) + 0x100 * High(a) == a
  {
  }

  /** `address + address`, `address + byte` and `address + int`. */
  function AddAddress(a: word, b: word): (r: AddressResult)
    ensures r.value + 0x1_0000 * Num(r.carry) == a + b
    ensures r.value == (a + b) % 0x1_0000
  {
    var result := a + b;
    AddressResult(result % 0x1_0000, result > 0xFFFF)
  }

  /** `address - int`: the carry of the result is the borrow. */
  function SubAddress(a: word, b: word): (r: AddressResult)
    ensures r.value == a - b + 0x1_0000 * Num(r.carry)
    ensures AddAddress(r.value, b).value == a
  {
    var result := (a - b) % 0x1_0000_0000;
    AddressResult(result % 0x1_0000, a < b)
  }

  /** An `int8_t` passed where a `uint16_t` is expected is sign-extended. */
  function SignExtend(b: byte): word {
    Signed(b) % 0x1_0000
  }
}
