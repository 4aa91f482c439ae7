/** Calls, interrupts and saved bytes over whole runs (6502isa.cpp, 6502cpu.cpp).
    A run is followed with a list of frames, one for each JSR, BRK or push not yet
    matched. While it stays well bracketed, shallow enough for the page-zero ring, and
    stores to no live stack cell, every return lands where its call was made. */
module Calls {
  import opened Bytes
  import opened Status
  import opened InstructionSet
  import opened MachineModel
  import opened Effects
  import opened StackRing
  import opened Opcodes

  datatype FrameKind = Subroutine | Handler | Saved

  /** What is on the stack, and the machine that was about to push it. */
  datatype Frame = Frame(kind: FrameKind, at: Machine)

  predicate Enters(op: Operation) {
    op in {Jsr, Brk, Pha, Phx, Phy, Php}
  }

  predicate Leaves(op: Operation) {
    op in {Rts, Rti, Pla, Plx, Ply, Plp}
  }

  function KindOf(op: Operation): FrameKind {
    match op
    case Jsr => Subroutine
    case Brk => Handler
    case _ => Saved
  }

  /** The byte a push instruction saves. */
  function SavedByte(at: Machine): byte {
    if Ready(at) && |PushedBytes(at, Fetched(at).op)| > 0 then PushedBytes(at, Fetched(at).op)[0] else 0
  }

  /** A frame as it lies in memory, from its top upward. */
  function Image(f: Frame): seq<byte> {
    match f.kind
    case Subroutine => [Low(f.at.pc), High(f.at.pc)]
    case Handler => [Pack(f.at.p), Low(f.at.pc), High(f.at.pc)]
    case Saved => [SavedByte(f.at)]
  }

  function Flat(fs: seq<Frame>): seq<byte> {
    if fs == [] then [] else Image(fs[0]) + Flat(fs[1..])
  }

  /** S is where the topmost frame put it, and was where the next one put it before that. */
  predicate Linked(s: byte, fs: seq<Frame>)
    decreases |fs|
  {
    fs == [] || (s == Moved(fs[0].at.s, -|Image(fs[0])|) && Linked(fs[0].at.s, fs[1..]))
  }

  predicate Live(s: byte, n: nat, addr: word) {
    exists i: byte :: i < n && addr == Moved(s, i)
  }

  // ---------------------------------------------------------------- following a run

  function Enter(m: Machine, fs: seq<Frame>, kind: FrameKind): Option<seq<Frame>> {
    var entered := [Frame(kind, m)] + fs;
    if |Flat(entered)| <= 0x100 then Some(entered) else None
  }

  function Leave(fs: seq<Frame>, kind: FrameKind): Option<seq<Frame>> {
    if fs != [] && fs[0].kind == kind then Some(fs[1..]) else None
  }

  /** The frames after one step, or None when the step breaks the discipline: an
      unmatched return or pull, more than 256 bytes on the stack, a TXS, or a store to a
      live stack cell. */
  function Track(m: Machine, fs: seq<Frame>): Option<seq<Frame>> {
    if !Ready(m) then Some(fs)
    else
      match Fetched(m).op
      case Jsr => Enter(m, fs, Subroutine)
      case Brk => Enter(m, fs, Handler)
      case Pha | Phx | Phy | Php => Enter(m, fs, Saved)
      case Rts => Leave(fs, Subroutine)
      case Rti => Leave(fs, Handler)
      case Pla | Plx | Ply | Plp => Leave(fs, Saved)
      case Txs => None
      case op =>
        if Stored(m, op, Address(m)).Some? && Live(m.s, |Flat(fs)|, Address(m)) then None else Some(fs)
  }

  /** The frames after `k` steps of a run that keeps the discipline throughout. */
  function TrackRun(m: Machine, fs: seq<Frame>, k: nat): Option<seq<Frame>>
    decreases k
  {
    if k == 0 then Some(fs)
    else match Track(m, fs)
      case None => None
      case Some(after) => TrackRun(Next(m), after, k - 1)
  }

  /** Memory and S agree with the frames. */
  predicate Agrees(m: Machine, fs: seq<Frame>) {
    Holds(m, Flat(fs)) && Linked(m.s, fs)
  }

  // ---------------------------------------------------------------- one step

  /** What `Next` takes over from the operation it runs. */
  lemma NextIsExec(m: Machine)
    requires Ready(m)
    ensures var r := Exec(m, Fetched(m).op, Address(m));
            && Next(m) == r.m.(pc := Next(m).pc)
            && (r.err == OKPCModified ==> Next(m) == r.m)
  {
    hide Exec, Resolve;
  }

  lemma SameStack(m: Machine, after: Machine, fs: seq<Frame>)
    requires Agrees(m, fs) && after.mem == m.mem && after.s == m.s
    ensures Agrees(after, fs)
  {
  }

  /** What entering a frame has pushed. */
  function PushImage(m: Machine, kind: FrameKind): Machine {
    match kind
    case Subroutine => Push(Push(m, High(m.pc)), Low(m.pc))
    case Handler => Push(Push(Push(m, High(m.pc)), Low(m.pc)), Pack(m.p))
    case Saved => Push(m, SavedByte(m))
  }

  lemma EnterAgrees(m: Machine, fs: seq<Frame>, kind: FrameKind)
    requires Agrees(m, fs) && Enter(m, fs, kind).Some?
    requires kind == Saved ==> Ready(m) && |PushedBytes(m, Fetched(m).op)| == 1
    ensures Agrees(PushImage(m, kind), [Frame(kind, m)] + fs)
  {
    hide Holds, Down, Moved, Pack, High, Low, SavedByte;
    var st := Flat(fs);
    var f := Frame(kind, m);
    assert ([f] + fs)[1..] == fs;
    assert Flat([f] + fs) == Image(f) + st;
    MovedFew(m.s);
    match kind {
      case Subroutine =>
        PushHolds(m, st, High(m.pc));
        PushHolds(Push(m, High(m.pc)), [High(m.pc)] + st, Low(m.pc));
        assert [Low(m.pc)] + ([High(m.pc)] + st) == Image(f) + st;
      case Handler =>
        PushHolds(m, st, High(m.pc));
        var m1 := Push(m, High(m.pc));
        PushHolds(m1, [High(m.pc)] + st, Low(m.pc));
        PushHolds(Push(m1, Low(m.pc)), [Low(m.pc)] + ([High(m.pc)] + st), Pack(m.p));
        assert [Pack(m.p)] + ([Low(m.pc)] + ([High(m.pc)] + st)) == Image(f) + st;
      case Saved =>
        PushHolds(m, st, SavedByte(m));
    }
  }

  /** One step inside the discipline keeps memory, S and the frames in agreement. */
  lemma TrackAgrees(m: Machine, fs: seq<Frame>)
    requires Agrees(m, fs) && Track(m, fs).Some?
    ensures Agrees(Next(m), Track(m, fs).value)
  {
    hide Exec, UseStack, Resolve, Next, Agrees, Enter, Puts, Stored, PushedBytes, Live, Flat, Restores;
    if Ready(m) {
      NextIsExec(m);
      var op := Fetched(m).op;
      if op.Group() != Stacking {
        PlainAgrees(m, fs);
      } else {
        if Enters(op) {
          EnterFrames(m, fs);
        } else {
          LeavesOne(m, fs);
          LeaveRestores(m, fs, op, Address(m));
          NextUsesStack(m);
          SameStack(UseStack(m, op, Address(m)).m, Next(m), fs[1..]);
        }
      }
    } else {
      assert Next(m) == m by { NotReadyStays(m); }
    }
  }

  lemma NotReadyStays(m: Machine)
    requires !Ready(m)
    ensures Next(m) == m
  {
    hide Exec, Resolve;
  }

  lemma PlainAgrees(m: Machine, fs: seq<Frame>)
    requires Agrees(m, fs) && Track(m, fs).Some?
    requires Ready(m) && Fetched(m).op.Group() != Stacking
    ensures Track(m, fs).value == fs && Agrees(Next(m), fs)
  {
    hide Exec, Resolve, Next, Stored, Live, Flat, Moved, PushedBytes;
    var op, addr := Fetched(m).op, Address(m);
    NextIsExec(m);
    ExecChanges(m, op, addr);
    NoPushes(m, op);
    PlainKeepsS(m, op, addr);
    forall i | 0 <= i < |Flat(fs)|
      ensures Next(m).mem[Moved(m.s, i)] == m.mem[Moved(m.s, i)]
    {
      LiveCell(m.s, |Flat(fs)|, i);
      assert Stored(m, op, addr).Some? ==> addr != Moved(m.s, i);
      ApplyUntouched(m.mem, Puts(m, op, addr), Moved(m.s, i));
    }
  }

  lemma LiveCell(s: byte, n: nat, i: byte)
    requires i < n
    ensures Live(s, n, Moved(s, i))
  {
  }

  function DropImage(m: Machine, kind: FrameKind): Machine {
    match kind
    case Subroutine => Drop(Drop(m))
    case Handler => Drop(Drop(Drop(m)))
    case Saved => Drop(m)
  }

  /** The top bytes of the stack are the image of the top frame, and below them lie the
      others. */
  lemma LeaveAgrees(m: Machine, fs: seq<Frame>)
    requires Agrees(m, fs) && fs != []
    ensures var f := fs[0];
            var below := DropImage(m, f.kind);
            && Agrees(below, fs[1..]) && below.s == f.at.s
            && match f.kind
               case Subroutine => Top(m) == Low(f.at.pc) && Top(Drop(m)) == High(f.at.pc)
               case Handler => Top(m) == Pack(f.at.p) && Top(Drop(m)) == Low(f.at.pc)
                               && Top(Drop(Drop(m))) == High(f.at.pc)
               case Saved => Top(m) == SavedByte(f.at)
  {
    hide Holds, Up, Moved, Pack, High, Low, SavedByte;
    var f, st := fs[0], Flat(fs);
    var rest := Flat(fs[1..]);
    assert st == Image(f) + rest;
    MovedFew(f.at.s);
    DropHolds(m, st);
    match f.kind {
      case Subroutine =>
        DropHolds(Drop(m), st[1..]);
        assert st[1..][1..] == rest;
      case Handler =>
        DropHolds(Drop(m), st[1..]);
        DropHolds(Drop(Drop(m)), st[1..][1..]);
        assert st[1..][1..][1..] == rest;
      case Saved =>
        assert st[1..] == rest;
    }
  }

  /** What a matched return or pull gives back: the caller's S and, for JSR, the address
      after its three bytes; for BRK, the address after its one byte and every flag; for
      a push, the byte saved. */
  predicate Restores(after: Machine, f: Frame, op: Operation) {
    && after.s == f.at.s
    && match f.kind
       case Subroutine => op == Rts && after.pc == (f.at.pc + 3) % 0x1_0000
       case Handler => op == Rti && after.pc == (f.at.pc + 1) % 0x1_0000 && after.p == f.at.p
       case Saved =>
         match op
         case Pla => after.a == SavedByte(f.at)
         case Plx => after.x == SavedByte(f.at)
         case Ply => after.y == SavedByte(f.at)
         case Plp => after.p == Unpack(SavedByte(f.at))
         case _ => false
  }

  predicate Closes(op: Operation, kind: FrameKind) {
    match kind
    case Subroutine => op == Rts
    case Handler => op == Rti
    case Saved => op in {Pla, Plx, Ply, Plp}
  }

  lemma LeavesOne(m: Machine, fs: seq<Frame>)
    requires Ready(m) && Leaves(Fetched(m).op) && Track(m, fs).Some?
    ensures fs != [] && Track(m, fs) == Some(fs[1..]) && Closes(Fetched(m).op, fs[0].kind)
  {
    hide Resolve, Stored, Live, Flat;
  }

  lemma RtsRestores(m: Machine, fs: seq<Frame>)
    requires Agrees(m, fs) && fs != [] && fs[0].kind == Subroutine
    ensures Restores(Return(m).m, fs[0], Rts) && Agrees(Return(m).m, fs[1..])
  {
    hide Agrees, Flat, High, Low, Up;
    LeaveAgrees(m, fs);
    JoinSplit(fs[0].at.pc);
    SameStack(Drop(Drop(m)), Return(m).m, fs[1..]);
  }

  lemma RtiRestores(m: Machine, fs: seq<Frame>)
    requires Agrees(m, fs) && fs != [] && fs[0].kind == Handler
    ensures Restores(ReturnFromInterrupt(m).m, fs[0], Rti) && Agrees(ReturnFromInterrupt(m).m, fs[1..])
  {
    hide Agrees, Flat, High, Low, Up, Pack, Unpack;
    LeaveAgrees(m, fs);
    JoinSplit(fs[0].at.pc);
    UnpackPack(fs[0].at.p);
    SameStack(Drop(Drop(Drop(m))), ReturnFromInterrupt(m).m, fs[1..]);
  }

  lemma PullEffect(m: Machine, op: Operation, addr: word)
    requires op in {Pla, Plx, Ply, Plp}
    ensures var after := UseStack(m, op, addr).m;
            && after.mem == m.mem && after.s == Drop(m).s
            && (op == Pla ==> after.a == Top(m))
            && (op == Plx ==> after.x == Top(m))
            && (op == Ply ==> after.y == Top(m))
            && (op == Plp ==> after.p == Unpack(Top(m)))
  {
    hide Unpack, Up;
  }

  lemma PullRestores(m: Machine, fs: seq<Frame>, op: Operation, addr: word)
    requires Agrees(m, fs) && fs != [] && fs[0].kind == Saved
    requires op in {Pla, Plx, Ply, Plp}
    ensures Restores(UseStack(m, op, addr).m, fs[0], op) && Agrees(UseStack(m, op, addr).m, fs[1..])
  {
    hide Agrees, Flat, SavedByte, Unpack, UseStack, Up, Top;
    PullEffect(m, op, addr);
    LeaveAgrees(m, fs);
    SameStack(Drop(m), UseStack(m, op, addr).m, fs[1..]);
  }

  /** A return or pull that closes the top frame restores it. */
  lemma LeaveRestores(m: Machine, fs: seq<Frame>, op: Operation, addr: word)
    requires fs != [] && Closes(op, fs[0].kind) && op.Group() == Stacking
    requires Agrees(m, fs)
    ensures Restores(UseStack(m, op, addr).m, fs[0], op) && Agrees(UseStack(m, op, addr).m, fs[1..])
  {
    hide Agrees, Restores, Return, ReturnFromInterrupt;
    match fs[0].kind {
      case Subroutine => RtsRestores(m, fs);
      case Handler => RtiRestores(m, fs);
      case Saved => PullRestores(m, fs, op, addr);
    }
  }

  /** The next machine is what the stack operation made, but for the program counter,
      which only a pull leaves to the step. */
  lemma NextUsesStack(m: Machine)
    requires Ready(m) && Leaves(Fetched(m).op)
    ensures var r := UseStack(m, Fetched(m).op, Address(m));
            && Next(m) == r.m.(pc := Next(m).pc)
            && (Fetched(m).op == Rts || Fetched(m).op == Rti ==> Next(m) == r.m)
  {
    hide Resolve, Next, Top, Drop, Pair, Unpack;
    NextIsExec(m);
  }

  lemma PushEffect(m: Machine)
    requires Ready(m) && Enters(Fetched(m).op)
    ensures var after := UseStack(m, Fetched(m).op, Address(m)).m;
            var pushed := PushImage(m, KindOf(Fetched(m).op));
            after.mem == pushed.mem && after.s == pushed.s
  {
    hide Resolve, Push, Pack, High, Low, Pair;
  }

  lemma EnterFrames(m: Machine, fs: seq<Frame>)
    requires Agrees(m, fs) && Track(m, fs).Some?
    requires Ready(m) && Enters(Fetched(m).op)
    ensures Track(m, fs) == Some([Frame(KindOf(Fetched(m).op), m)] + fs)
    ensures Agrees(Next(m), Track(m, fs).value)
  {
    hide Resolve, Next, Agrees, UseStack, PushImage, Enter;
    var kind := KindOf(Fetched(m).op);
    NextIsExec(m);
    PushEffect(m);
    EnterAgrees(m, fs, kind);
    EnteredFrames(m, fs, kind);
    SameStack(PushImage(m, kind), Next(m), [Frame(kind, m)] + fs);
  }

  lemma EnteredFrames(m: Machine, fs: seq<Frame>, kind: FrameKind)
    requires Enter(m, fs, kind).Some?
    ensures Enter(m, fs, kind).value == [Frame(kind, m)] + fs
  {
  }

  // ---------------------------------------------------------------- whole runs

  lemma {:induction false} TrackLast(m: Machine, fs: seq<Frame>, k: nat)
    requires TrackRun(m, fs, k + 1).Some?
    ensures TrackRun(m, fs, k).Some?
    ensures TrackRun(m, fs, k + 1) == Track(Iterate(m, k), TrackRun(m, fs, k).value)
    decreases k
  {
    hide Track, Next;
    if k > 0 {
      TrackLast(Next(m), Track(m, fs).value, k - 1);
    } else {
      assert TrackRun(Next(m), Track(m, fs).value, 0) == Track(m, fs);
    }
  }

  /** As long as a run keeps the discipline, memory and S agree with the frames. */
  lemma {:induction false} RunAgrees(m: Machine, fs: seq<Frame>, k: nat)
    requires Agrees(m, fs) && TrackRun(m, fs, k).Some?
    ensures Agrees(Iterate(m, k), TrackRun(m, fs, k).value)
    decreases k
  {
    hide Track, Next, Agrees;
    if k == 0 {
    } else {
      TrackAgrees(m, fs);
      RunAgrees(Next(m), Track(m, fs).value, k - 1);
    }
  }

  /** A step enters one frame, leaves one, or leaves the frames alone. */
  lemma TrackShape(m: Machine, fs: seq<Frame>)
    requires Track(m, fs).Some?
    ensures var after := Track(m, fs).value;
            || after == fs
            || (|after| == |fs| + 1 && after[1..] == fs && after[0].at == m)
            || (fs != [] && after == fs[1..] && Ready(m) && Leaves(Fetched(m).op))
  {
    hide Resolve, Stored, Live, Flat;
  }

  /** While the run stays above `base`, its frames end with `f` and `base`. */
  predicate Above(fs: seq<Frame>, f: Frame, base: seq<Frame>) {
    |fs| > |base| && fs[|fs| - |base| - 1..] == [f] + base
  }

  lemma {:induction false} StaysAbove(m: Machine, base: seq<Frame>, f: Frame, k: nat)
    requires k > 0 && TrackRun(m, base, k).Some?
    requires Track(m, base) == Some([f] + base)
    requires forall j | 0 < j <= k :: TrackRun(m, base, j).Some? && |TrackRun(m, base, j).value| > |base|
    ensures Above(TrackRun(m, base, k).value, f, base)
    decreases k
  {
    hide Track, Next;
    if k == 1 {
      assert TrackRun(Next(m), [f] + base, 0) == Some([f] + base);
    } else {
      TrackLast(m, base, k - 1);
      StaysAbove(m, base, f, k - 1);
      var fs := TrackRun(m, base, k - 1).value;
      var after := TrackRun(m, base, k).value;
      TrackShape(Iterate(m, k - 1), fs);
      if |after| == |fs| + 1 {
        assert after[|after| - |base| - 1..] == after[1..][|fs| - |base| - 1..];
      } else if after != fs {
        assert after[|after| - |base| - 1..] == fs[1..][|fs| - 1 - |base| - 1..];
      }
    }
  }

  /** The run from `m` stays above `base` until its `k`-th step comes back to that depth. */
  predicate Bracketed(m: Machine, base: seq<Frame>, k: nat) {
    && k > 1
    && (forall j | 0 < j < k :: TrackRun(m, base, j).Some? && |TrackRun(m, base, j).value| > |base|)
    && TrackRun(m, base, k).Some? && |TrackRun(m, base, k).value| == |base|
  }

  lemma BracketShape(m: Machine, base: seq<Frame>, k: nat)
    requires Agrees(m, base) && Ready(m) && Enters(Fetched(m).op)
    requires Bracketed(m, base, k)
    ensures TrackRun(m, base, k - 1) == Some([Frame(KindOf(Fetched(m).op), m)] + base)
    ensures TrackRun(m, base, k) == Some(base)
    ensures Ready(Iterate(m, k - 1)) && Leaves(Fetched(Iterate(m, k - 1)).op)
  {
    hide Resolve, Next, Agrees, Track;
    var f := Frame(KindOf(Fetched(m).op), m);
    assert TrackRun(m, base, 1).Some?;
    EnterFrames(m, base);
    StaysAbove(m, base, f, k - 1);
    TrackLast(m, base, k - 1);
    var fs := TrackRun(m, base, k - 1).value;
    TrackShape(Iterate(m, k - 1), fs);
    assert |fs| == |base| + 1;
  }

  /** What a pull restores does not depend on the program counter. */
  lemma RestoresAnywhere(m: Machine, after: Machine, f: Frame, op: Operation)
    requires Restores(m, f, op) && Closes(op, f.kind) && after == m.(pc := after.pc)
    requires op == Rts || op == Rti ==> after == m
    ensures Restores(after, f, op)
  {
  }

  /** Nested calls. Whatever is executed between a JSR, BRK or push and the step that
      brings the frames back to where they were, that step is the matching return or
      pull, it restores what `Restores` says, and the stack below is as it was. */
  lemma CallReturns(m: Machine, base: seq<Frame>, k: nat)
    requires Agrees(m, base) && Ready(m) && Enters(Fetched(m).op)
    requires Bracketed(m, base, k)
    ensures var last := Iterate(m, k - 1);
            && Ready(last)
            && Restores(Iterate(m, k), Frame(KindOf(Fetched(m).op), m), Fetched(last).op)
            && TrackRun(m, base, k) == Some(base) && Agrees(Iterate(m, k), base)
  {
    hide Resolve, Next, Agrees, Restores, Track, UseStack;
    BracketShape(m, base, k);
    TrackLast(m, base, k - 1);
    IterateLast(m, k - 1);
    RunAgrees(m, base, k - 1);
    var last, fs := Iterate(m, k - 1), TrackRun(m, base, k - 1).value;
    var op := Fetched(last).op;
    LeavesOne(last, fs);
    LeaveRestores(last, fs, op, Address(last));
    NextUsesStack(last);
    RestoresAnywhere(UseStack(last, op, Address(last)).m, Next(last), fs[0], op);
    SameStack(UseStack(last, op, Address(last)).m, Next(last), base);
  }

  /** For a JSR: the run is closed by an RTS, which resumes after the JSR. */
  lemma SubroutineReturns(m: Machine, base: seq<Frame>, k: nat)
    requires Agrees(m, base) && Ready(m) && Fetched(m).op == Jsr && Bracketed(m, base, k)
    ensures Ready(Iterate(m, k - 1)) && Fetched(Iterate(m, k - 1)).op == Rts
    ensures Iterate(m, k).pc == (m.pc + 3) % 0x1_0000 && Iterate(m, k).s == m.s
  {
    hide Resolve, Next, Agrees, Track;
    CallReturns(m, base, k);
  }

  /** For a BRK: the run is closed by an RTI, which resumes after the BRK with the status
      byte as it was. */
  lemma InterruptReturns(m: Machine, base: seq<Frame>, k: nat)
    requires Agrees(m, base) && Ready(m) && Fetched(m).op == Brk && Bracketed(m, base, k)
    ensures Ready(Iterate(m, k - 1)) && Fetched(Iterate(m, k - 1)).op == Rti
    ensures Iterate(m, k).pc == (m.pc + 1) % 0x1_0000 && Iterate(m, k).s == m.s
    ensures Pack(Iterate(m, k).p) == Pack(m.p)
  {
    hide Resolve, Next, Agrees, Track, Pack;
    CallReturns(m, base, k);
  }

  // ---------------------------------------------------------------- the smallest call and interrupt

  lemma OneFrame(f: Frame)
    ensures Flat([f]) == Image(f) && |Image(f)| <= 3
  {
    assert [f][1..] == [];
    assert Flat([]) == [];
  }

  lemma InAndOut(m: Machine, n: Machine)
    requires Ready(m) && Ready(n)
    requires (Fetched(m).op == Jsr && Fetched(n).op == Rts) || (Fetched(m).op == Brk && Fetched(n).op == Rti)
    ensures var f := Frame(KindOf(Fetched(m).op), m); Track(m, []) == Some([f]) && Track(n, [f]) == Some([])
  {
    hide Resolve, Flat, Stored, Live, Image;
    var f := Frame(KindOf(Fetched(m).op), m);
    OneFrame(f);
    assert [f] + [] == [f];
  }

  /** One frame entered and left again. */
  lemma BracketOfTwo(m: Machine, f: Frame)
    requires Track(m, []) == Some([f]) && Track(Next(m), [f]) == Some([])
    ensures Bracketed(m, [], 2)
  {
    hide Track, Next;
    var n := Next(m);
    assert TrackRun(n, [f], 0) == Some([f]);
    assert TrackRun(m, [], 1) == Some([f]);
    assert TrackRun(Next(n), [], 0) == Some([]);
    assert TrackRun(n, [f], 1) == Some([]);
  }

  /** The cells below S, from above and from below. */
  lemma CellsBelow(s: byte)
    ensures ((s - 2) % 0x100 + 1) % 0x100 == (s - 1) % 0x100 && ((s - 2) % 0x100 + 2) % 0x100 == s
    ensures ((s - 3) % 0x100 + 1) % 0x100 == (s - 2) % 0x100 && ((s - 3) % 0x100 + 2) % 0x100 == (s - 1) % 0x100
    ensures ((s - 3) % 0x100 + 3) % 0x100 == s
    ensures (s - 1) % 0x100 != (s - 2) % 0x100 && (s - 1) % 0x100 != (s - 3) % 0x100
    ensures (s - 2) % 0x100 != (s - 3) % 0x100
  {
  }

  lemma AddressAt(mem: Memory, low: word, high: word, pc: word)
    requires mem[low] == pc % 0x100 && mem[high] == pc / 0x100
    ensures mem[low] as int + 0x100 * mem[high] as int == pc
  {
  }

  /** RTS on what a JSR at `m` stored. */
  lemma RtsAfterJsr(m: Machine, n: Machine, high: byte, low: byte)
    requires high == (m.s - 1) % 0x100 && low == (m.s - 2) % 0x100 && Fetches(n, 0x60)
    requires n == m.(pc := n.pc, s := low, mem := n.mem, log := n.log)
    requires n.mem == m.mem[high := m.pc / 0x100][low := m.pc % 0x100]
    ensures Ready(n) && Fetched(n).op == Rts
    ensures Next(n) == m.(pc := (m.pc + 3) % 0x1_0000, mem := n.mem, log := n.log)
  {
    hide Next, Fetches, Ready;
    CellsBelow(m.s);
    AddressAt(n.mem, low, high, m.pc);
    RtsLeaves(n);
  }

  lemma TwoSteps(m: Machine)
    ensures Iterate(m, 2) == Next(Next(m))
  {
    hide Next;
    assert Iterate(m, 2) == Iterate(Next(m), 1) == Iterate(Next(Next(m)), 0);
  }

  /** The smallest call, as a program: JSR to a cell that holds RTS. It is bracketed in
      two steps, resumes after the three bytes of the JSR, and leaves nothing changed but
      the two cells below S that held the address. */
  lemma SmallestCall(m: Machine)
    requires Fetches(m, 0x20) && m.mem[CodeAddress(m)] == 0x60
    requires CodeAddress(m) != (m.s - 1) % 0x100 && CodeAddress(m) != (m.s - 2) % 0x100
    ensures Bracketed(m, [], 2)
    ensures var n := Iterate(m, 2);
            && n == m.(pc := (m.pc + 3) % 0x1_0000, mem := n.mem, log := n.log)
            && n.mem == m.mem[(m.s - 1) % 0x100 := m.pc / 0x100][(m.s - 2) % 0x100 := m.pc % 0x100]
  {
    hide Next, CodeAddress, Track, Iterate, Bracketed, Ready, Isa;
    JsrEnters(m);
    var n := Next(m);
    TwoSteps(m);
    RtsAfterJsr(m, n, (m.s - 1) % 0x100, (m.s - 2) % 0x100);
    InAndOut(m, n);
    BracketOfTwo(m, Frame(Subroutine, m));
  }

  /** RTI on what a BRK at `m` stored. */
  lemma RtiAfterBrk(m: Machine, n: Machine, high: byte, low: byte, status: byte)
    requires high == (m.s - 1) % 0x100 && low == (m.s - 2) % 0x100 && status == (m.s - 3) % 0x100
    requires Fetches(n, 0x40)
    requires n == m.(pc := n.pc, s := status, p := n.p, mem := n.mem, log := n.log)
    requires n.mem == m.mem[high := m.pc / 0x100][low := m.pc % 0x100][status := Pack(m.p)]
    ensures Ready(n) && Fetched(n).op == Rti
    ensures Next(n) == m.(pc := (m.pc + 1) % 0x1_0000, mem := n.mem, log := n.log)
  {
    hide Next, Fetches, Pack, Unpack, Ready;
    CellsBelow(m.s);
    AddressAt(n.mem, low, high, m.pc);
    RtiLeaves(n);
    UnpackPack(m.p);
  }

  /** The smallest interrupt: BRK with an RTI where the vector points. It resumes one byte
      after the BRK with every flag as it was. */
  lemma SmallestInterrupt(m: Machine)
    requires Fetches(m, 0x00)
    requires var vector := m.mem[0xFFFE] as int + 0x100 * m.mem[0xFFFF] as int;
             && m.mem[vector] == 0x40
             && vector != (m.s - 1) % 0x100 && vector != (m.s - 2) % 0x100 && vector != (m.s - 3) % 0x100
    ensures Bracketed(m, [], 2)
    ensures var n := Iterate(m, 2);
            && n == m.(pc := (m.pc + 1) % 0x1_0000, mem := n.mem, log := n.log)
            && n.mem == m.mem[(m.s - 1) % 0x100 := m.pc / 0x100][(m.s - 2) % 0x100 := m.pc % 0x100]
                             [(m.s - 3) % 0x100 := Pack(m.p)]
  {
    hide Next, Track, Pack, Unpack, Iterate, Bracketed, Ready, Isa;
    BrkEnters(m);
    var n := Next(m);
    TwoSteps(m);
    RtiAfterBrk(m, n, (m.s - 1) % 0x100, (m.s - 2) % 0x100, (m.s - 3) % 0x100);
    InAndOut(m, n);
    BracketOfTwo(m, Frame(Handler, m));
  }

  /** With nothing on the stack yet, any machine agrees. */
  lemma EmptyAgrees(m: Machine)
    ensures Agrees(m, [])
  {
  }

  // ---------------------------------------------------------------- bit 5 of the status byte

  /** Every PLP in the first `k` steps pulls what a PHP pushed. */
  predicate StatusMatched(m: Machine, fs: seq<Frame>, k: nat)
    requires TrackRun(m, fs, k).Some?
    decreases k
  {
    k == 0 || (
      && (Ready(m) && Fetched(m).op == Plp ==> fs != [] && Ready(fs[0].at) && Fetched(fs[0].at).op == Php)
      && StatusMatched(Next(m), Track(m, fs).value, k - 1))
  }

  predicate Bit5Set(m: Machine, fs: seq<Frame>) {
    m.p.u && forall f | f in fs :: f.at.p.u
  }

  lemma SavedStatus(at: Machine)
    requires Ready(at) && Fetched(at).op == Php
    ensures Unpack(SavedByte(at)).u == at.p.u
  {
    hide Resolve, Unpack, Pack;
    UnpackPack(at.p.Set(BreakCommand, true));
  }

  lemma StackBit5(m: Machine, op: Operation, addr: word)
    requires op.Group() == Stacking && op != Plp && op != Rti
    ensures UseStack(m, op, addr).m.p.u == m.p.u
  {
    hide Pack, Pair, High, Low, Top, Up, Down;
  }

  /** Only PLP and RTI replace the flags wholesale; nothing else changes bit 5. */
  lemma Bit5Kept(m: Machine, op: Operation, addr: word)
    requires op != Plp && op != Rti
    ensures Exec(m, op, addr).m.p.u == m.p.u
  {
    hide Calculate, Shift, Move, UseStack, Direct;
    match op.Group() {
      case Arithmetic => CalculateKeeps(m, op, addr);
      case Shifting => ShiftKeeps(m, op, addr);
      case Data => MoveKeeps(m, op, addr);
      case Stacking => StackBit5(m, op, addr);
      case Control => DirectKeeps(m, op, addr);
    }
  }

  lemma StepBit5(m: Machine, fs: seq<Frame>)
    requires Agrees(m, fs) && TrackRun(m, fs, 1).Some? && StatusMatched(m, fs, 1) && Bit5Set(m, fs)
    ensures Bit5Set(Next(m), Track(m, fs).value)
  {
    hide Ready, Next, Agrees, Track;
    StatusBit5(m, fs);
    TrackShape(m, fs);
    var after := Track(m, fs).value;
    assert forall f | f in after :: f == after[0] || f in after[1..];
  }

  lemma StatusBit5(m: Machine, fs: seq<Frame>)
    requires Agrees(m, fs) && TrackRun(m, fs, 1).Some? && StatusMatched(m, fs, 1) && Bit5Set(m, fs)
    ensures Next(m).p.u
  {
    hide Exec, Resolve, Next, Agrees, Track, SavedByte, Unpack, Image, UseStack;
    if Ready(m) {
      var op, addr := Fetched(m).op, Address(m);
      NextIsExec(m);
      if op == Plp || op == Rti {
        LeavesOne(m, fs);
        LeaveRestores(m, fs, op, addr);
        NextUsesStack(m);
        if op == Plp {
          SavedStatus(fs[0].at);
        }
      } else {
        Bit5Kept(m, op, addr);
      }
    } else {
      NotReadyStays(m);
    }
  }

  lemma {:induction false} RunBit5(m: Machine, fs: seq<Frame>, k: nat)
    requires Agrees(m, fs) && TrackRun(m, fs, k).Some? && StatusMatched(m, fs, k) && Bit5Set(m, fs)
    ensures Bit5Set(Iterate(m, k), TrackRun(m, fs, k).value)
    decreases k
  {
    hide Next, Agrees, Track, Bit5Set;
    if k == 0 {
    } else {
      var after := Track(m, fs).value;
      assert TrackRun(Next(m), after, 0).Some? && StatusMatched(Next(m), after, 0);
      StepBit5(m, fs);
      TrackAgrees(m, fs);
      RunBit5(Next(m), after, k - 1);
    }
  }

  /** In general bit 5 is whatever the last PLP or RTI pulled. */
  lemma Bit5Exact(m: Machine)
    ensures Next(m).p.u ==
            if Ready(m) && Fetched(m).op in {Plp, Rti} then Bit(Top(m), 5) else m.p.u
  {
    hide Exec, Resolve, Next, Bit;
    if Ready(m) {
      var op, addr := Fetched(m).op, Address(m);
      NextIsExec(m);
      if op in {Plp, Rti} {
        PulledFlags(m, op, addr);
        RawBit(Top(m), 5);
      } else {
        Bit5Kept(m, op, addr);
      }
    } else {
      NotReadyStays(m);
    }
  }

  lemma PulledFlags(m: Machine, op: Operation, addr: word)
    requires op == Plp || op == Rti
    ensures Exec(m, op, addr).m.p == Unpack(Top(m))
  {
    hide Unpack, Pair, Up;
  }

  /** The next step pulls no status byte, or one with bit 5 set. */
  predicate PullsBit5(m: Machine) {
    Ready(m) && Fetched(m).op in {Plp, Rti} ==> Bit(Top(m), 5)
  }

  /** Bit 5 is set all along a run exactly when it is set at first and every PLP and RTI
      of the run pulls a byte that has it. */
  lemma {:induction false} Bit5Always(m: Machine, k: nat)
    ensures (forall j: nat | j <= k :: Iterate(m, j).p.u)
            <==> m.p.u && forall j: nat | j < k :: PullsBit5(Iterate(m, j))
    decreases k
  {
    hide Next, PullsBit5;
    assert Iterate(m, 0) == m;
    if k == 0 {
    } else {
      Bit5Always(m, k - 1);
      var last := Iterate(m, k - 1);
      IterateLast(m, k - 1);
      if last.p.u {
        Bit5Next(last);
      }
    }
  }

  /** A set bit 5 survives a step exactly when the step pulls no status byte without it. */
  lemma Bit5Next(m: Machine)
    requires m.p.u
    ensures Next(m).p.u <==> PullsBit5(m)
  {
    hide Resolve, Next, Bit, Top;
    Bit5Exact(m);
  }

  lemma PhaPushes(m: Machine)
    requires Fetches(m, 0x48)
    ensures Ready(m) && Fetched(m) == Instruction(Pha, Stack)
    ensures Next(m) == Push(m, m.a).(pc := (m.pc + 1) % 0x1_0000)
  {
    hide Decode, Isa, Down;
    PushPullEntries();
    StepRuns(m, 0x48, Instruction(Pha, Stack), m.s);
  }

  lemma PlpReady(m: Machine)
    requires Fetches(m, 0x28)
    ensures Ready(m) && Fetched(m) == Instruction(Plp, Stack)
  {
    hide Decode, Isa;
    PushPullEntries();
    StepRuns(m, 0x28, Instruction(Plp, Stack), m.s);
  }

  /** PHA then PLP: bit 5 of A becomes bit 5 of the status byte, and the stack is as
      it was. */
  lemma PhaThenPlp(m: Machine)
    requires Fetches(m, 0x48) && Fetches(Next(m), 0x28)
    ensures Iterate(m, 2).p.u == Bit(m.a, 5)
    ensures TrackRun(m, [], 2) == Some([])
  {
    hide Decode, Isa, Resolve, Next, Bit, Fetches, Flat, Track;
    var m1 := Next(m);
    PhaPushes(m);
    PlpReady(m1);
    Bit5Exact(m1);
    assert Iterate(m, 2) == Iterate(m1, 1) == Iterate(Next(m1), 0);
    SavedAndPulled(m, m1);
    assert TrackRun(Next(m1), [], 0) == Some([]);
    assert TrackRun(m1, [Frame(Saved, m)], 1) == Some([]);
  }

  lemma SavedAndPulled(m: Machine, m1: Machine)
    requires Ready(m) && Fetched(m).op == Pha && Ready(m1) && Fetched(m1).op == Plp
    ensures Track(m, []) == Some([Frame(Saved, m)]) && Track(m1, [Frame(Saved, m)]) == Some([])
  {
    hide Resolve, Flat, Stored, Live, Image;
    OneFrame(Frame(Saved, m));
    assert [Frame(Saved, m)] + [] == [Frame(Saved, m)];
  }

  /** Bit 5 can be lost right after reset, without leaving the stack discipline: PHA
      pushes the zero in A, and PLP pulls it. */
  lemma Bit5CanBeLost(mem: Memory, dev: word, debug: bool)
    requires Pair(mem, 0xFFFC, 0xFFFD) == 0x8000 && mem[0x8000] == 0x48 && mem[0x8001] == 0x28
    ensures var m := Reset(mem, dev, debug);
            m.p.u && !Iterate(m, 2).p.u && TrackRun(m, [], 2) == Some([])
  {
    hide Isa, Resolve, Next, Pair, TrackRun, Iterate;
    var m := Reset(mem, dev, debug);
    assert m.p.u && m.s == 0xFF && m.a == 0;
    PhaPushes(m);
    PhaThenPlp(m);
    assert !Bit(0, 5);
  }

  /** From reset, bit 5 of the status byte stays set as long as every RTI and PLP pulls
      the byte the matching BRK or PHP pushed. */
  lemma Bit5StaysSet(mem: Memory, dev: word, debug: bool, k: nat)
    requires TrackRun(Reset(mem, dev, debug), [], k).Some?
    requires StatusMatched(Reset(mem, dev, debug), [], k)
    ensures Iterate(Reset(mem, dev, debug), k).p.u
  {
    hide Next, Agrees, Track;
    var m := Reset(mem, dev, debug);
    EmptyAgrees(m);
    assert Unpack(0x24).u;
    RunBit5(m, [], k);
  }
}
