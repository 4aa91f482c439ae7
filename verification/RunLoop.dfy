/** What `CPU6502::execute` computes (6502cpu.cpp): it runs until a step reports Stop. */
module RunLoop {
  import opened Bytes
  import opened InstructionSet
  import opened MachineModel

  /** `Unfinished`: still running when the number of steps granted was used up. */
  datatype Halt = Stopped | Faulted | Unfinished

  datatype RunResult = RunResult(m: Machine, halt: Halt)

  function Execute(m: Machine, fuel: nat): RunResult
    decreases fuel
  {
    if fuel == 0 then RunResult(m, Unfinished)
    else
      var r := Step(m);
      if r.err == Stop then RunResult(r.m, Stopped)
      else if r.err == OutOfRange then RunResult(r.m, Faulted)
      else Execute(r.m, fuel - 1)
  }

  /** The machine takes another step after this one. */
  predicate Continues(m: Machine) {
    Step(m).err != Stop && Step(m).err != OutOfRange
  }

  /** The first `k` steps all let the loop go on. */
  predicate RunsFor(m: Machine, k: nat) {
    forall j | 0 <= j < k :: Continues(Iterate(m, j))
  }

  /** The `k`-th step, and no earlier one, ends the loop with `err`. */
  predicate EndsAt(m: Machine, k: nat, err: InstructionErr) {
    k > 0 && RunsFor(m, k - 1) && Step(Iterate(m, k - 1)).err == err
  }

  lemma RunsForSplit(m: Machine, k: nat)
    requires k > 0
    ensures RunsFor(m, k) <==> Continues(m) && RunsFor(Next(m), k - 1)
  {
    hide Next, Continues;
    assert Iterate(m, 0) == m;
    assert forall j: nat | 0 < j :: Iterate(m, j) == Iterate(Next(m), j - 1);
    if RunsFor(m, k) {
      forall j: nat | j < k - 1
        ensures Continues(Iterate(Next(m), j))
      {
        assert Continues(Iterate(m, j + 1));
      }
    }
    if Continues(m) && RunsFor(Next(m), k - 1) {
      forall j: nat | j < k
        ensures Continues(Iterate(m, j))
      {
        if j > 0 {
          assert Continues(Iterate(Next(m), j - 1));
        }
      }
    }
  }

  lemma {:induction false} RunsForAdd(m: Machine, j: nat, k: nat)
    requires RunsFor(m, j) && RunsFor(Iterate(m, j), k)
    ensures RunsFor(m, j + k)
  {
    hide Next, Continues;
    forall i | 0 <= i < j + k
      ensures Continues(Iterate(m, i))
    {
      if i >= j {
        IterateAdd(m, j, i - j);
        assert Continues(Iterate(Iterate(m, j), i - j));
      }
    }
  }

  lemma EndsAtSplit(m: Machine, k: nat, err: InstructionErr)
    requires err == Stop || err == OutOfRange
    ensures EndsAt(m, k, err) <==> if k <= 1 then k == 1 && Step(m).err == err
                                   else Continues(m) && EndsAt(Next(m), k - 1, err)
  {
    hide Next, Step;
    if k > 1 {
      RunsForSplit(m, k - 1);
      assert Iterate(m, k - 1) == Iterate(Next(m), k - 2);
    } else if k == 1 {
      assert Iterate(m, 0) == m;
    }
  }

  lemma {:induction false} EndsAtDecides(m: Machine, k: nat, err: InstructionErr, fuel: nat)
    requires err == Stop || err == OutOfRange
    requires EndsAt(m, k, err) && k <= fuel
    ensures Execute(m, fuel) == RunResult(Iterate(m, k), if err == Stop then Stopped else Faulted)
    decreases k
  {
    hide Step;
    EndsAtSplit(m, k, err);
    if k > 1 {
      EndsAtDecides(Next(m), k - 1, err, fuel - 1);
    } else {
      assert Iterate(m, 1) == Iterate(Next(m), 0);
    }
  }

  lemma {:induction false} EndFound(m: Machine, fuel: nat) returns (k: nat)
    ensures var r := Execute(m, fuel);
            if r.halt == Unfinished then RunsFor(m, fuel) && r.m == Iterate(m, fuel)
            else k <= fuel && EndsAt(m, k, if r.halt == Stopped then Stop else OutOfRange)
    decreases fuel
  {
    hide Step;
    k := 1;
    if fuel == 0 {
    } else {
      if !Continues(m) {
        EndsAtSplit(m, 1, Step(m).err);
      } else {
        var rest := EndFound(Next(m), fuel - 1);
        k := rest + 1;
        RunsForSplit(m, fuel);
        EndsAtSplit(m, k, if Execute(m, fuel).halt == Stopped then Stop else OutOfRange);
      }
    }
  }

  /** If the loop ends at all it ends at the first step reporting Stop, in the state
      that many steps from the start; otherwise it is still going after `fuel` steps. */
  lemma ExecuteMeaning(m: Machine, fuel: nat)
    ensures forall k: nat | k <= fuel && EndsAt(m, k, Stop) ::
              Execute(m, fuel) == RunResult(Iterate(m, k), Stopped)
    ensures Execute(m, fuel).halt == Stopped <==> exists k: nat :: k <= fuel && EndsAt(m, k, Stop)
    ensures Execute(m, fuel).halt == Faulted <==> exists k: nat :: k <= fuel && EndsAt(m, k, OutOfRange)
    ensures Execute(m, fuel).halt == Unfinished <==> RunsFor(m, fuel)
    ensures Execute(m, fuel).halt == Unfinished ==> Execute(m, fuel).m == Iterate(m, fuel)
  {
    hide Step;
    var end := EndFound(m, fuel);
    forall k: nat, err | k <= fuel && EndsAt(m, k, err) && (err == Stop || err == OutOfRange)
      ensures Execute(m, fuel) == RunResult(Iterate(m, k), if err == Stop then Stopped else Faulted)
    {
      EndsAtDecides(m, k, err, fuel);
    }
    if Execute(m, fuel).halt != Unfinished {
      assert !Continues(Iterate(m, end - 1));
    }
  }

  lemma StackReports(m: Machine, op: Operation, addr: word)
    requires op.Group() == Stacking
    ensures UseStack(m, op, addr).err in {OK, OKPCModified}
  {
    hide Push, Drop, Top, Pair;
  }

  lemma DirectReports(m: Machine, op: Operation, addr: word)
    requires op.Group() == Control
    ensures Direct(m, op, addr).err == Stop <==> op == Stp
    ensures Direct(m, op, addr).err == GoToDebugger <==> op == Dbg && m.debug
    ensures Direct(m, op, addr).err in {OK, OKPCModified, Stop, GoToDebugger}
  {
    hide Bit;
  }

  /** What each operation can report. */
  lemma Reports(m: Machine, op: Operation, addr: word)
    ensures Exec(m, op, addr).err == Stop <==> op == Stp
    ensures Exec(m, op, addr).err == GoToDebugger <==> op == Dbg && m.debug
    ensures Exec(m, op, addr).err in {OK, OKPCModified, Stop, GoToDebugger}
  {
    hide Calculate, Shift, Move, UseStack, Direct;
    match op.Group() {
      case Stacking => StackReports(m, op, addr);
      case Control => DirectReports(m, op, addr);
      case _ =>
    }
  }

  /** Only STP reports Stop. */
  lemma StopMeansStp(m: Machine)
    ensures Step(m).err == Stop <==> Ready(m) && Fetched(m).op == Stp
  {
    hide Exec, Resolve;
    if Ready(m) {
      Reports(m, Fetched(m).op, Address(m));
    }
  }

  /** The loop ignores "unknown instruction": such a machine never changes and never stops. */
  lemma {:induction false} UnknownIsFixedPoint(m: Machine, k: nat)
    requires !Known(m)
    ensures Iterate(m, k) == m && Execute(m, k) == RunResult(m, Unfinished)
  {
    if k == 0 {
    } else {
      UnknownIsFixedPoint(m, k - 1);
    }
  }
}
