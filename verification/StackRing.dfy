/** `push_stack` and `pop_stack` over page zero as a ring (6502cpu.cpp): within 256
    bytes of depth it behaves as an unbounded stack, wherever S wraps. */
module StackRing {
  import opened Bytes
  import opened MachineModel

  lemma MovedAdd(s: byte, d: int, e: int)
    requires -3 <= d <= 3 && -3 <= e <= 3
    ensures Moved(Moved(s, d), e) == Moved(s, d + e)
    ensures Moved(s, -1) == Down(s) && Moved(s, 1) == Up(s) && Moved(s, 0) == s
  {
  }

  lemma MovedFew(s: byte)
    ensures Moved(s, -1) == Down(s) && Moved(s, -2) == Down(Down(s)) && Moved(s, -3) == Down(Down(Down(s)))
    ensures Up(Moved(s, -1)) == s && Up(Up(Moved(s, -2))) == s && Up(Up(Up(Moved(s, -3)))) == s
  {
    hide Moved, Up, Down;
    MovedAdd(s, -1, -1);
    MovedAdd(s, -2, -1);
    MovedAdd(s, -1, 1);
    MovedAdd(s, -2, 1);
    MovedAdd(s, -3, 1);
    MovedAdd(Down(s), -1, -1);
    MovedAdd(Moved(s, -2), -1, 1);
    MovedAdd(Moved(s, -3), 1, 1);
    MovedAdd(s, 0, 0);
  }

  lemma MovedApart(s: byte, i: nat, j: nat)
    requires i < j < 0x100
    ensures Moved(s, i) != Moved(s, j)
  {
  }

  /** The cells from S upward hold `st`, the top of the stack first. */
  predicate Holds(m: Machine, st: seq<byte>) {
    |st| <= 0x100 && forall i | 0 <= i < |st| :: m.mem[Moved(m.s, i)] == st[i]
  }

  lemma PushHolds(m: Machine, st: seq<byte>, v: byte)
    requires Holds(m, st) && |st| < 0x100
    ensures Holds(Push(m, v), [v] + st)
  {
    hide Moved, Down;
    var after := Push(m, v);
    MovedOnce(Down(m.s), 0);
    forall i | 0 <= i < |st| + 1
      ensures after.mem[Moved(after.s, i)] == ([v] + st)[i]
    {
      MovedOnce(m.s, i - 1);
      if i > 0 {
        MovedApart(Down(m.s), 0, i);
      }
    }
  }

  lemma DropHolds(m: Machine, st: seq<byte>)
    requires Holds(m, st) && st != []
    ensures Top(m) == st[0] && Holds(Drop(m), st[1..])
  {
    hide Up, Moved;
    MovedOnce(m.s, 0);
    assert m.mem[Moved(m.s, 0)] == st[0];
    forall i | 0 <= i < |st| - 1
      ensures Drop(m).mem[Moved(Drop(m).s, i)] == st[1..][i]
    {
      MovedOnce(m.s, i + 1);
      assert m.mem[Moved(m.s, i + 1)] == st[i + 1];
    }
  }

  /** The bound is tight: one more push on a full ring overwrites its deepest byte. */
  lemma FullRingOverwrites(m: Machine, st: seq<byte>, v: byte)
    requires Holds(m, st) && |st| == 0x100
    ensures m.mem[Moved(m.s, 0xFF)] == st[0xFF] && Push(m, v).mem[Moved(m.s, 0xFF)] == v
  {
    assert Moved(m.s, 0xFF) == Down(m.s);
  }

  // ---------------------------------------------------------------- sequences of operations

  datatype StackOp = PushOp(v: byte) | PopOp

  /** The machine after the operations, and the bytes the pops returned. */
  function RunOps(m: Machine, ops: seq<StackOp>): (Machine, seq<byte>)
    decreases |ops|
  {
    if ops == [] then (m, [])
    else match ops[0]
      case PushOp(v) => RunOps(Push(m, v), ops[1..])
      case PopOp =>
        var (after, popped) := RunOps(Drop(m), ops[1..]);
        (after, [Top(m)] + popped)
  }

  /** The operations keep the depth, `depth` at first, within 0 and 256. */
  predicate Fits(depth: int, ops: seq<StackOp>)
    decreases |ops|
  {
    0 <= depth <= 0x100 && (ops == [] || Fits(if ops[0].PushOp? then depth + 1 else depth - 1, ops[1..]))
  }

  /** The same operations on an unbounded stack. */
  function RunLifo(st: seq<byte>, ops: seq<StackOp>): (r: (seq<byte>, seq<byte>))
    requires Fits(|st|, ops)
    ensures |r.0| <= 0x100
    decreases |ops|
  {
    if ops == [] then (st, [])
    else match ops[0]
      case PushOp(v) => RunLifo([v] + st, ops[1..])
      case PopOp =>
        assert Fits(|st| - 1, ops[1..]);
        var (after, popped) := RunLifo(st[1..], ops[1..]);
        (after, [st[0]] + popped)
  }

  /** The cells the operations push to, when S starts at `s`. */
  function PushedCells(s: byte, ops: seq<StackOp>): set<word>
    decreases |ops|
  {
    if ops == [] then {}
    else match ops[0]
      case PushOp(_) => {Down(s) as word} + PushedCells(Down(s), ops[1..])
      case PopOp => PushedCells(Up(s), ops[1..])
  }

  /** Within 256 bytes of depth the ring returns what an unbounded stack would, ends
      holding what it would hold, and changes only the page-zero cells pushed to. */
  lemma {:induction false} RingIsLifo(m: Machine, st: seq<byte>, ops: seq<StackOp>)
    requires Holds(m, st) && Fits(|st|, ops)
    ensures var (after, popped) := RunOps(m, ops);
            var (rest, expected) := RunLifo(st, ops);
            && popped == expected
            && Holds(after, rest)
            && after.s == Moved(m.s, |st| - |rest|)
            && after == m.(mem := after.mem, log := after.log, s := after.s)
            && forall a: word :: a !in PushedCells(m.s, ops) ==> after.mem[a] == m.mem[a]
    ensures forall a | a in PushedCells(m.s, ops) :: a < 0x100
    decreases |ops|
  {
    hide Up, Down, Moved, Holds;
    var (rest, _) := RunLifo(st, ops);
    MovedOnce(m.s, |st| - |rest|);
    if ops == [] {
    } else {
      match ops[0] {
        case PushOp(v) =>
          assert |st| < 0x100 by {
            assert Fits(|st| + 1, ops[1..]);
          }
          PushHolds(m, st, v);
          RingIsLifo(Push(m, v), [v] + st, ops[1..]);
        case PopOp =>
          assert Fits(|st| - 1, ops[1..]);
          DropHolds(m, st);
          RingIsLifo(Drop(m), st[1..], ops[1..]);
      }
    }
  }
}
