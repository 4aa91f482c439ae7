/** The processor status register (psr.h and psr.cpp): the packed byte the
    program keeps, and the record of eight flags it stands for. */
module Status {
  import opened Bytes

  datatype PsrBit = Carry | Zero | InterruptDisable | DecimalMode
                  | BreakCommand | Unused | Overflow | Negative
  {
    function Index(): (k: nat)
      ensures k < 8
    {
      match this
      case Carry => 0
      case Zero => 1
      case InterruptDisable => 2
      case DecimalMode => 3
      case BreakCommand => 4
      case Unused => 5
      case Overflow => 6
      case Negative => 7
    }
  }

  /** The eight flags. `u` is the raw bit 5, which no flag operation reads or changes. */
  datatype Flags = Flags(c: bool, z: bool, i: bool, d: bool, b: bool, u: bool, v: bool, n: bool)
  {
    /** What `get_bit` reports. */
    predicate Get(bit: PsrBit) {
      match bit
      case Carry => c
      case Zero => z
      case InterruptDisable => i
      case DecimalMode => d
      case BreakCommand => b
      case Unused => true
      case Overflow => v
      case Negative => n
    }

    function Set(bit: PsrBit, value: bool): (f: Flags)
      ensures f.u == u
    {
      match bit
      case Carry => this.(c := value)
      case Zero => this.(z := value)
      case InterruptDisable => this.(i := value)
      case DecimalMode => this.(d := value)
      case BreakCommand => this.(b := value)
      case Unused => this
      case Overflow => this.(v := value)
      case Negative => this.(n := value)
    }

    /** The flags after `update_flags(value)`. */
    function OfValue(value: byte): (f: Flags)
      ensures f == this.(z := f.z, n := f.n)
    {
      this.(z := value == 0, n := value >= 0x80)
    }

    function Bits(): (s: seq<bool>)
      ensures |s| == 8
    {
      [c, z, i, d, b, u, v, n]
    }

    predicate Raw(k: nat)
      requires k < 8
    {
      match k
      case 0 => c
      case 1 => z
      case 2 => i
      case 3 => d
      case 4 => b
      case 5 => u
      case 6 => v
      case 7 => n
    }
  }

  /** The number with the given bits, least significant first. */
  function FromBits(s: seq<bool>): (n: nat)
    ensures n < Pow2(|s|)
  {
    if s == [] then 0 else Num(s[0]) + 2 * FromBits(s[1..])
  }

  lemma {:induction false} FromBitsBit(s: seq<bool>, k: nat)
    requires k < |s|
    ensures Bit(FromBits(s), k) == s[k]
  {
    if k == 0 {
    } else {
      FromBitsBit(s[1..], k - 1);
    }
  }

  function Pack(f: Flags): byte {
    assert Pow2(8) == 0x100;
    FromBits(f.Bits())
  }

  /** The low `w` bits of a number, least significant first. */
  function ToBits(n: nat, w: nat): (s: seq<bool>)
    ensures |s| == w
    decreases w, n
  {
    if w == 0 then [] else [n % 2 == 1] + ToBits(n / 2, w - 1)
  }

  lemma {:induction false} ToBitsBit(n: nat, w: nat, k: nat)
    requires k < w
    ensures ToBits(n, w)[k] == Bit(n, k)
    decreases k
  {
    if k == 0 {
    } else {
      ToBitsBit(n / 2, w - 1, k - 1);
    }
  }

  function Unpack(p: byte): Flags {
    var s := ToBits(p, 8);
    Flags(s[0], s[1], s[2], s[3], s[4], s[5], s[6], s[7])
  }

  lemma PackBit(f: Flags, k: nat)
    requires k < 8
    ensures Bit(Pack(f), k) == f.Raw(k)
  {
    hide FromBits, Bit;
    var s := f.Bits();
    FromBitsBit(s, k);
    if k == 0 {} else if k == 1 {} else if k == 2 {} else if k == 3 {}
    else if k == 4 {} else if k == 5 {} else if k == 6 {} else {}
  }

  lemma UnpackPack(f: Flags)
    ensures Unpack(Pack(f)) == f
  {
    forall k: nat | k < 8
      ensures Unpack(Pack(f)).Raw(k) == f.Raw(k)
    {
      PackBit(f, k);
      RawBit(Pack(f), k);
    }
    SameFlags(Unpack(Pack(f)), f);
  }

  lemma RawBit(p: byte, k: nat)
    requires k < 8
    ensures Unpack(p).Raw(k) == Bit(p, k)
  {
    ToBitsBit(p, 8, k);
    hide ToBits, Bit;
    if k == 0 {} else if k == 1 {} else if k == 2 {} else if k == 3 {}
    else if k == 4 {} else if k == 5 {} else if k == 6 {} else {}
  }

  lemma PackUnpack(p: byte)
    ensures Pack(Unpack(p)) == p
  {
    var q := Pack(Unpack(p));
    UnpackPack(Unpack(p));
    forall k: nat | k < 8
      ensures Bit(q, k) == Bit(p, k)
    {
      RawBit(p, k);
      RawBit(q, k);
    }
    assert Pow2(8) == 0x100;
    SameBits(q, p, 8);
  }

  /** Flag records whose eight bits agree are the same record. */
  lemma SameFlags(f: Flags, g: Flags)
    requires forall k: nat | k < 8 :: f.Raw(k) == g.Raw(k)
    ensures f == g
  {
    assert f.Raw(0) == g.Raw(0) && f.Raw(1) == g.Raw(1) && f.Raw(2) == g.Raw(2) && f.Raw(3) == g.Raw(3);
    assert f.Raw(4) == g.Raw(4) && f.Raw(5) == g.Raw(5) && f.Raw(6) == g.Raw(6) && f.Raw(7) == g.Raw(7);
  }

  lemma SetRaw(f: Flags, bit: PsrBit, value: bool, k: nat)
    requires k < 8
    ensures f.Set(bit, value).Raw(k) == if bit != Unused && k == bit.Index() then value else f.Raw(k)
  {
    match bit {
      case Carry =>
      case Zero =>
      case InterruptDisable =>
      case DecimalMode =>
      case BreakCommand =>
      case Unused =>
      case Overflow =>
      case Negative =>
    }
  }

  // ---------------------------------------------------------------- the packed byte

  /** `psr_ |= mask` or `psr_ &= ~mask`, with `unused` left alone. */
  function SetPacked(p: byte, bit: PsrBit, value: bool): byte {
    if bit == Unused then p
    else if value then BitOr(p, Mask(bit.Index()))
    else BitAnd(p, BitNot(Mask(bit.Index())))
  }

  predicate GetPacked(p: byte, bit: PsrBit) {
    bit == Unused || BitAnd(p, Mask(bit.Index())) != 0
  }

  /** Reading a bit of the packed byte reads the flag. */
  lemma GetRefines(p: byte, bit: PsrBit)
    ensures GetPacked(p, bit) == Unpack(p).Get(bit)
  {
    IsBitSetMeaning(p, bit.Index());
    RawBit(p, bit.Index());
  }

  lemma SetPackedBit(p: byte, bit: PsrBit, value: bool, k: nat)
    requires k < 8
    ensures Bit(SetPacked(p, bit, value), k) == if bit != Unused && k == bit.Index() then value else Bit(p, k)
  {
    var mask := Mask(bit.Index());
    Pow2Bit(bit.Index(), k);
    assert Pow2(8) == 0x100;
    if bit != Unused {
      NotBit(mask, 8, k);
      BitwiseBit(if value then OrGate else AndGate, p, if value then mask else BitNot(mask), k);
    }
  }

  /** Changing a bit of the packed byte changes that flag and no other. */
  lemma SetRefines(p: byte, bit: PsrBit, value: bool)
    ensures Unpack(SetPacked(p, bit, value)) == Unpack(p).Set(bit, value)
  {
    var q := SetPacked(p, bit, value);
    forall k: nat | k < 8
      ensures Unpack(q).Raw(k) == Unpack(p).Set(bit, value).Raw(k)
    {
      RawBit(q, k);
      RawBit(p, k);
      SetPackedBit(p, bit, value, k);
      SetRaw(Unpack(p), bit, value, k);
    }
    SameFlags(Unpack(q), Unpack(p).Set(bit, value));
  }

  // ---------------------------------------------------------------- sequences of updates

  datatype PsrOp = SetOp(bit: PsrBit, value: bool)
                 | UpdateOp(bit: PsrBit, update: bool -> bool)

  function ApplyPacked(p: byte, ops: seq<PsrOp>): byte
    decreases |ops|
  {
    if ops == [] then p
    else
      var op := ops[0];
      var value := if op.SetOp? then op.value else op.update(GetPacked(p, op.bit));
      ApplyPacked(SetPacked(p, op.bit, value), ops[1..])
  }

  function ApplyFlags(f: Flags, ops: seq<PsrOp>): Flags
    decreases |ops|
  {
    if ops == [] then f
    else
      var op := ops[0];
      var value := if op.SetOp? then op.value else op.update(f.Get(op.bit));
      ApplyFlags(f.Set(op.bit, value), ops[1..])
  }

  /** Any sequence of `set_bit` and `update_bit` calls on the packed byte has the effect
      of the same calls on eight independent booleans; bit 5 keeps its raw value and
      `unused` reads true throughout. */
  lemma {:induction false} PackedRefinesFlags(p: byte, ops: seq<PsrOp>)
    ensures Unpack(ApplyPacked(p, ops)) == ApplyFlags(Unpack(p), ops)
    ensures Bit(ApplyPacked(p, ops), 5) == Bit(p, 5)
    ensures GetPacked(ApplyPacked(p, ops), Unused)
    decreases |ops|
  {
    if ops == [] {
    } else {
      var op := ops[0];
      GetRefines(p, op.bit);
      var value := if op.SetOp? then op.value else op.update(GetPacked(p, op.bit));
      SetRefines(p, op.bit, value);
      SetPackedBit(p, op.bit, value, 5);
      PackedRefinesFlags(SetPacked(p, op.bit, value), ops[1..]);
    }
  }

  // ---------------------------------------------------------------- the register

  class PSR {
    var psr: byte

    constructor ()
      ensures psr == 0x24
      ensures Unpack(psr) == Flags(false, false, true, false, false, true, false, false)
    {
      psr := 0x24;
    }

    constructor OfByte(value: byte)
      ensures psr == value
    {
      psr := value;
    }

    predicate GetBit(bit: PsrBit)
      reads this
      ensures GetBit(bit) == Unpack(psr).Get(bit)
    {
      GetRefines(psr, bit);
      GetPacked(psr, bit)
    }

    method SetBit(bit: PsrBit, value: bool)
      modifies this
      ensures Unpack(psr) == Unpack(old(psr)).Set(bit, value)
    {
      SetRefines(psr, bit, value);
      if bit == Unused {
        return;
      }
      if value {
        psr := BitOr(psr, Mask(bit.Index()));
      } else {
        psr := BitAnd(psr, BitNot(Mask(bit.Index())));
      }
    }

    method UpdateBit(bit: PsrBit, update: bool -> bool)
      modifies this
      ensures Unpack(psr) == Unpack(old(psr)).Set(bit, update(Unpack(old(psr)).Get(bit)))
    {
      if bit == Unused {
        return;
      }
      var current := GetBit(bit);
      SetBit(bit, update(current));
    }

    function Get(): (p: byte)
      reads this
      ensures p == Pack(Unpack(psr))
    {
      PackUnpack(psr);
      psr
    }

    method SetByte(value: byte)
      modifies this
      ensures Unpack(psr) == Unpack(value).(u := true)
    {
      psr := BitOr(value, Mask(Unused.Index()));
      forall k: nat | k < 8
        ensures Unpack(psr).Raw(k) == Unpack(value).(u := true).Raw(k)
      {
        RawBit(value, k);
        RawBit(psr, k);
        Pow2Bit(5, k);
        BitwiseBit(OrGate, value, Mask(5), k);
      }
      SameFlags(Unpack(psr), Unpack(value).(u := true));
    }
  }
}
