/** What the debugger's two loops do to the machine (debugger.cpp and debugger.h), for
    commands that are already parsed. A session carries the commands not yet read and
    the machine states visited so far, one per step taken. */
module DebuggerLoop {
  import opened Bytes
  import opened Status
  import opened Alu
  import opened InstructionSet
  import opened MachineModel
  import opened RunLoop

  /** One input line. `Get` carries its arguments as numbers; `Blank` and `Invalid` are
      lines that only prompt again. */
  datatype Command = Blank | Invalid | Dump | Get(args: seq<nat>) | StepOne | Continue | Help | Exit

  /** A `get` shows one cell, or as many as its second argument says; with no argument or
      more than two it shows a message. The range is not checked against memory: these
      are the commands whose range leaves it. */
  predicate PastMemory(command: Command) {
    command.Get? &&
    match |command.args|
    case 1 => command.args[0] >= MEMORY_SIZE
    case 2 => command.args[1] > 0 && command.args[0] + command.args[1] > MEMORY_SIZE
    case _ => false
  }

  datatype Session = Session(m: Machine, input: seq<Command>, visited: seq<Machine>)

  /** How a loop ended: `Resumed` is the prompt's "continue", `Starved` a prompt left
      waiting with no more input, `Exited` the exit command, `Faulty` a step and `Overread`
      a `get` that read past memory, `Ran` a loop still running when the steps granted
      were used up. */
  datatype Outcome = Resumed | Halted | Faulty | Overread | Exited | Starved | Ran

  function Visit(s: Session, m: Machine): Session {
    s.(m := m, visited := s.visited + [m])
  }

  /** `go_to_debugger`. */
  function Prompt(s: Session): (Session, Outcome)
    decreases |s.input|
  {
    if s.input == [] then (s, Starved)
    else
      var rest := s.(input := s.input[1..]);
      match s.input[0]
      case StepOne =>
        var r := Step(s.m);
        var after := Visit(rest, r.m);
        if r.err == Stop then (after, Halted)
        else if r.err == OutOfRange then (after, Faulty)
        else Prompt(after)
      case Continue => (rest, Resumed)
      case Exit => (rest, Exited)
      case command => if PastMemory(command) then (rest, Overread) else Prompt(rest)
  }

  /** `Debugger::run`, for at most `fuel` rounds. */
  function Run(s: Session, fuel: nat): (Session, Outcome)
    decreases fuel
  {
    if fuel == 0 then (s, Ran)
    else
      var r := Step(s.m);
      var after := Visit(s, r.m);
      if r.err == GoToDebugger then
        var (resumed, outcome) := Prompt(after);
        if outcome == Resumed then Run(resumed, fuel - 1) else (resumed, outcome)
      else if r.err == Stop then (after, Halted)
      else if r.err == OutOfRange then (after, Faulty)
      else Run(after, fuel - 1)
  }

  // ---------------------------------------------------------------- transparency

  /** The same machine with debugging off. */
  function Quiet(m: Machine): Machine {
    m.(debug := false)
  }

  /** Setting registers and flags commutes with the switch. */
  lemma SettersQuiet()
    ensures forall m: Machine, v: byte :: SetA(Quiet(m), v) == Quiet(SetA(m, v))
    ensures forall m: Machine, v: byte :: SetX(Quiet(m), v) == Quiet(SetX(m, v))
    ensures forall m: Machine, v: byte :: SetY(Quiet(m), v) == Quiet(SetY(m, v))
    ensures forall m: Machine, r: Sum :: SetAlu(Quiet(m), r) == Quiet(SetAlu(m, r))
    ensures forall m: Machine, c: bool :: WithCarry(Quiet(m), c) == Quiet(WithCarry(m, c))
    ensures forall m: Machine, addr: word, v: byte :: Store(Quiet(m), addr, v) == Quiet(Store(m, addr, v))
    ensures forall m: Machine, addr: word, v: byte :: Write(Quiet(m), addr, v) == Quiet(Write(m, addr, v))
  {
    hide Flags.OfValue;
  }

  lemma ComparingQuiet()
    ensures forall m: Machine, acc: byte, v: byte :: Compare(Quiet(m), acc, v) == Quiet(Compare(m, acc, v))
    ensures forall m: Machine, acc: byte, v: byte :: CompareBorrow(Quiet(m), acc, v) == Quiet(CompareBorrow(m, acc, v))
  {
  }

  lemma CalculateQuiet(m: Machine, op: Operation, addr: word)
    requires op.Group() == Arithmetic
    ensures Calculate(Quiet(m), op, addr) == Quiet(Calculate(m, op, addr))
  {
    hide Adc8, Sbc8, BitAnd, BitOr, BitXor, Bit, Low, Flags.OfValue, Compare, CompareBorrow, SetA, SetX, SetY,
      SetAlu, WithCarry;
    SettersQuiet();
    ComparingQuiet();
  }

  lemma ShiftQuiet(m: Machine, op: Operation, addr: word)
    requires op.Group() == Shifting
    ensures Shift(Quiet(m), op, addr) == Quiet(Shift(m, op, addr))
  {
    hide Rol8, Ror8, SetA, WithCarry, Store, Write;
    SettersQuiet();
  }

  lemma MoveQuiet(m: Machine, op: Operation, addr: word)
    requires op.Group() == Data
    ensures Move(Quiet(m), op, addr) == Quiet(Move(m, op, addr))
  {
    hide BitAnd, BitOr;
  }

  lemma UseStackQuiet(m: Machine, op: Operation, addr: word)
    requires op.Group() == Stacking
    ensures UseStack(Quiet(m), op, addr).m == Quiet(UseStack(m, op, addr).m)
    ensures UseStack(Quiet(m), op, addr).err == UseStack(m, op, addr).err != GoToDebugger
  {
    hide Pack, Unpack, Pair;
  }

  lemma DirectQuiet(m: Machine, op: Operation, addr: word)
    requires op.Group() == Control
    ensures Direct(Quiet(m), op, addr).m == Quiet(Direct(m, op, addr).m)
    ensures Direct(Quiet(m), op, addr).err ==
            if Direct(m, op, addr).err == GoToDebugger then OK else Direct(m, op, addr).err
  {
  }

  lemma ResolveQuiet(m: Machine, mode: AddressingMode)
    ensures Resolve(Quiet(m), mode) == Resolve(m, mode)
  {
    hide Pair, Signed;
  }

  /** The debug switch changes what a step reports, never what it does. */
  lemma StepQuiet(m: Machine)
    ensures Step(Quiet(m)).m == Quiet(Step(m).m)
    ensures Step(Quiet(m)).err == if Step(m).err == GoToDebugger then OK else Step(m).err
  {
    hide Calculate, Shift, Move, UseStack, Direct, Resolve;
    if Known(m) {
      ResolveQuiet(m, Fetched(m).mode);
      if Ready(m) {
        var op, addr := Fetched(m).op, Address(m);
        match op.Group() {
          case Arithmetic => CalculateQuiet(m, op, addr);
          case Shifting => ShiftQuiet(m, op, addr);
          case Data => MoveQuiet(m, op, addr);
          case Stacking => UseStackQuiet(m, op, addr);
          case Control => DirectQuiet(m, op, addr);
        }
      }
    }
  }

  /** The states an undisturbed run passes through: after step 1, 2, ... */
  predicate IsHistory(start: Machine, visited: seq<Machine>) {
    forall i | 0 <= i < |visited| :: Quiet(visited[i]) == Iterate(start, i + 1)
  }

  /** A session that has followed the undisturbed run from `start` without ending it. */
  predicate Follows(start: Machine, s: Session) {
    && IsHistory(start, s.visited)
    && Quiet(s.m) == Iterate(start, |s.visited|)
    && RunsFor(start, |s.visited|)
  }

  /** A session whose last step was the one that ends the undisturbed run with `err`. */
  predicate Ends(start: Machine, s: Session, err: InstructionErr) {
    && IsHistory(start, s.visited)
    && Quiet(s.m) == Iterate(start, |s.visited|)
    && EndsAt(start, |s.visited|, err)
  }

  /** What a session has done, by the way its loop ended. */
  predicate Faithful(start: Machine, s: Session, outcome: Outcome) {
    match outcome
    case Halted => Ends(start, s, Stop)
    case Faulty => Ends(start, s, OutOfRange)
    case _ => Follows(start, s)
  }

  lemma FollowStep(start: Machine, s: Session)
    requires Follows(start, s)
    ensures var r := Step(s.m);
            var after := Visit(s, r.m);
            if r.err == Stop || r.err == OutOfRange then Ends(start, after, r.err) else Follows(start, after)
  {
    hide Step;
    var n := |s.visited|;
    StepQuiet(s.m);
    IterateLast(start, n);
    var after := Visit(s, Step(s.m).m);
    assert IsHistory(start, after.visited);
    assert Continues(Iterate(start, n)) == (Step(s.m).err != Stop && Step(s.m).err != OutOfRange);
  }

  lemma {:induction false} PromptFollows(start: Machine, s: Session)
    requires Follows(start, s)
    ensures var (after, outcome) := Prompt(s);
            outcome != Ran && Faithful(start, after, outcome)
    decreases |s.input|
  {
    hide Step;
    if s.input == [] {
    } else {
      var rest := s.(input := s.input[1..]);
      match s.input[0] {
        case StepOne =>
          FollowStep(start, rest);
          var r := Step(s.m);
          if r.err != Stop && r.err != OutOfRange {
            PromptFollows(start, Visit(rest, r.m));
          }
        case Continue =>
        case Exit =>
        case command =>
          if !PastMemory(command) {
            PromptFollows(start, rest);
          }
      }
    }
  }

  lemma {:induction false} RunFollows(start: Machine, s: Session, fuel: nat)
    requires Follows(start, s)
    ensures var (after, outcome) := Run(s, fuel);
            outcome != Resumed && Faithful(start, after, outcome)
    ensures Run(s, fuel).1 == Ran ==> |Run(s, fuel).0.visited| >= |s.visited| + fuel
    decreases fuel
  {
    hide Step;
    if fuel == 0 {
    } else {
      FollowStep(start, s);
      var r := Step(s.m);
      var after := Visit(s, r.m);
      if r.err == GoToDebugger {
        PromptFollows(start, after);
        PromptGrows(after);
        var (resumed, outcome) := Prompt(after);
        if outcome == Resumed {
          RunFollows(start, resumed, fuel - 1);
        }
      } else if r.err != Stop && r.err != OutOfRange {
        RunFollows(start, after, fuel - 1);
      }
    }
  }

  lemma {:induction false} PromptGrows(s: Session)
    ensures |Prompt(s).0.visited| >= |s.visited|
    decreases |s.input|
  {
    hide Step;
    if s.input == [] {
    } else {
      var rest := s.(input := s.input[1..]);
      PromptGrows(rest);
      PromptGrows(Visit(rest, Step(s.m).m));
    }
  }

  lemma FollowsAtFirst(m: Machine, input: seq<Command>)
    ensures Follows(Quiet(m), Session(m, input, []))
  {
  }

  /** Debugging is transparent. Whatever the commands, the states visited are those of
      `execute` with debugging off, in order and without a gap; no step goes past the end
      of that run; and a halt is the halt of `execute`, in the same final state. */
  lemma Transparent(m: Machine, input: seq<Command>, fuel: nat)
    ensures var (s, outcome) := Run(Session(m, input, []), fuel);
            && IsHistory(Quiet(m), s.visited)
            && (forall k: nat | EndsAt(Quiet(m), k, Stop) :: |s.visited| <= k)
            && (outcome == Halted ==> Execute(Quiet(m), |s.visited|) == RunResult(Quiet(s.m), Stopped))
            && (outcome == Faulty ==> Execute(Quiet(m), |s.visited|) == RunResult(Quiet(s.m), Faulted))
            && (outcome != Halted && outcome != Faulty ==>
                  Execute(Quiet(m), |s.visited|) == RunResult(Quiet(s.m), Unfinished))
  {
    hide Step;
    var start := Quiet(m);
    FollowsAtFirst(m, input);
    RunFollows(start, Session(m, input, []), fuel);
    var (s, outcome) := Run(Session(m, input, []), fuel);
    var n := |s.visited|;
    ExecuteMeaning(start, n);
    forall k: nat | EndsAt(start, k, Stop)
      ensures n <= k
    {
      assert !Continues(Iterate(start, k - 1));
    }
    if outcome == Faulty {
      EndsAtDecides(start, n, OutOfRange, n);
    }
  }

  /** The session with only its first `i` lines of input. */
  function Cut(s: Session, i: nat): Session
    requires i <= |s.input|
  {
    s.(input := s.input[..i])
  }

  /** Line `i` is a `get` whose range leaves memory, and the prompt gets as far as that
      line: had the input ended just before it, the prompt would have been left waiting. */
  predicate Reaches(s: Session, i: nat) {
    i < |s.input| && PastMemory(s.input[i]) && Prompt(Cut(s, i)).1 == Starved
  }

  /** Past a first line that lets the prompt go on from `next`, the same lines are reached. */
  lemma ReachesLater(s: Session, next: Session, i: nat)
    requires s.input != [] && s.input[0] != Continue && s.input[0] != Exit && !PastMemory(s.input[0])
    requires var rest := s.(input := s.input[1..]);
             if s.input[0] == StepOne then Continues(s.m) && next == Visit(rest, Next(s.m)) else next == rest
    ensures Reaches(s, i + 1) <==> Reaches(next, i)
  {
    hide Step, PastMemory;
    if i + 1 < |s.input| {
      assert s.input[..i + 1][0] == s.input[0] && s.input[..i + 1][1..] == s.input[1..][..i];
    }
  }

  /** The first line ends the prompt. */
  predicate LeavesAtOnce(s: Session) {
    s.input != [] && (s.input[0] == Continue || s.input[0] == Exit || PastMemory(s.input[0])
                      || (s.input[0] == StepOne && !Continues(s.m)))
  }

  lemma ReachesFirst(s: Session, i: nat)
    ensures Reaches(s, 0) <==> s.input != [] && PastMemory(s.input[0])
    ensures s.input == [] || (LeavesAtOnce(s) && i > 0) ==> !Reaches(s, i)
  {
    hide Step;
    if 0 < i <= |s.input| {
      assert s.input[..i][0] == s.input[0];
    }
  }

  /** The prompt reads past memory exactly when it reaches a `get` whose range leaves it. */
  lemma {:induction false} OverreadsExactly(s: Session)
    ensures Prompt(s).1 == Overread <==> exists i: nat :: Reaches(s, i)
    decreases |s.input|
  {
    hide Step, Reaches;
    forall i: nat
      ensures Reaches(s, 0) <==> s.input != [] && PastMemory(s.input[0])
      ensures s.input == [] || (LeavesAtOnce(s) && i > 0) ==> !Reaches(s, i)
    {
      ReachesFirst(s, i);
    }
    if s.input == [] || LeavesAtOnce(s) {
      assert Prompt(s).1 == Overread ==> Reaches(s, 0);
    } else {
      var rest := s.(input := s.input[1..]);
      var next := if s.input[0] == StepOne then Visit(rest, Next(s.m)) else rest;
      OverreadsExactly(next);
      forall i: nat
        ensures Reaches(s, i + 1) <==> Reaches(next, i)
      {
        ReachesLater(s, next, i);
      }
      if i: nat :| Reaches(s, i) {
        assert Reaches(next, i - 1);
      }
    }
  }

  /** When `execute` stops after `k` steps, a debugging session with that many rounds that
      neither exits, runs out of commands nor reads past memory halts too, in the same
      state after the same steps. */
  lemma SameHalt(m: Machine, input: seq<Command>, fuel: nat, k: nat)
    requires EndsAt(Quiet(m), k, Stop) && fuel >= k
    ensures var (s, outcome) := Run(Session(m, input, []), fuel);
            || outcome == Starved
            || (outcome == Exited && Exit in input)
            || (outcome == Overread && exists command :: command in input && PastMemory(command))
            || (outcome == Halted && |s.visited| == k && Quiet(s.m) == Iterate(Quiet(m), k))
  {
    hide Step, Run, Execute, PastMemory, Iterate, IsHistory;
    var start := Quiet(m);
    FollowsAtFirst(m, input);
    RunFollows(start, Session(m, input, []), fuel);
    Transparent(m, input, fuel);
    var (s, outcome) := Run(Session(m, input, []), fuel);
    var n := |s.visited|;
    LeftByCommand(Session(m, input, []), fuel);
    assert !Continues(Iterate(start, k - 1));
    if outcome == Halted || outcome == Faulty {
      assert !Continues(Iterate(start, n - 1));
    }
  }

  lemma {:induction false} PromptLeftBy(s: Session)
    ensures forall command :: command in Prompt(s).0.input ==> command in s.input
    ensures Prompt(s).1 == Exited ==> Exit in s.input
    ensures Prompt(s).1 == Overread ==> exists command :: command in s.input && PastMemory(command)
    decreases |s.input|
  {
    hide Step, PastMemory;
    if s.input == [] {
    } else {
      var rest := s.(input := s.input[1..]);
      assert s.input[0] in s.input;
      PromptLeftBy(rest);
      PromptLeftBy(Visit(rest, Step(s.m).m));
    }
  }

  /** Only a line of the input makes a session exit or read past memory. */
  lemma {:induction false} LeftByCommand(s: Session, fuel: nat)
    ensures Run(s, fuel).1 == Exited ==> Exit in s.input
    ensures Run(s, fuel).1 == Overread ==> exists command :: command in s.input && PastMemory(command)
    decreases fuel
  {
    hide Step, PastMemory, Prompt;
    if fuel == 0 {
    } else {
      var r := Step(s.m);
      var after := Visit(s, r.m);
      if r.err == GoToDebugger {
        PromptLeftBy(after);
        LeftByCommand(Prompt(after).0, fuel - 1);
      } else {
        LeftByCommand(after, fuel - 1);
      }
    }
  }

  /** With debugging off the prompt is never entered: the run is `execute`, and the
      commands stay unread. */
  lemma {:induction false} QuietIsExecute(s: Session, fuel: nat)
    requires !s.m.debug
    ensures var (after, outcome) := Run(s, fuel);
            var r := Execute(s.m, fuel);
            && after.m == r.m && after.input == s.input
            && outcome == match r.halt
                          case Stopped => Halted
                          case Faulted => Faulty
                          case Unfinished => Ran
    decreases fuel
  {
    hide Step;
    if fuel == 0 {
    } else {
      StepQuiet(s.m);
      assert Quiet(s.m) == s.m;
      QuietIsExecute(Visit(s, Step(s.m).m), fuel - 1);
    }
  }
}
