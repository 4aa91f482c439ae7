/** When the debugger reads its input, and what each line does, said of the machine alone:
    a line is read only after DBG has been executed with debugging on (debugger.h and
    debugger.cpp). */
module Breakpoints {
  import opened Bytes
  import opened InstructionSet
  import opened MachineModel
  import opened RunLoop
  import opened DebuggerLoop
  import Opcodes

  // ---------------------------------------------------------------- the prompt

  /** The states after step 1, 2, ..., `n`. */
  function Trail(m: Machine, n: nat): seq<Machine>
    decreases n
  {
    if n == 0 then [] else [Next(m)] + Trail(Next(m), n - 1)
  }

  /** The session `n` steps on. */
  function Later(s: Session, n: nat): Session {
    s.(m := Iterate(s.m, n), visited := s.visited + Trail(s.m, n))
  }

  /** The session with its first `i` lines read. */
  function Past(s: Session, i: nat): Session
    requires i <= |s.input|
  {
    s.(input := s.input[i..])
  }

  /** A line that leaves the prompt at once. */
  predicate Leaving(command: Command) {
    command == Continue || command == Exit || PastMemory(command)
  }

  /** How many of the lines are `step`. */
  function StepLines(lines: seq<Command>): nat {
    if lines == [] then 0 else (if lines[0] == StepOne then 1 else 0) + StepLines(lines[1..])
  }

  lemma LaterOnce(s: Session, n: nat)
    ensures Later(s, 0) == s
    ensures Later(s, n + 1) == Later(Visit(s, Next(s.m)), n)
  {
    hide Next;
    assert s.visited + [] == s.visited;
    assert s.visited + ([Next(s.m)] + Trail(Next(s.m), n)) == (s.visited + [Next(s.m)]) + Trail(Next(s.m), n);
  }

  lemma {:induction false} TrailLast(m: Machine, n: nat)
    ensures Trail(m, n + 1) == Trail(m, n) + [Iterate(m, n + 1)]
    decreases n
  {
    hide Next;
    if n == 0 {
      assert Trail(m, 1) == [Next(m)] + Trail(Next(m), 0);
      assert Iterate(m, 1) == Iterate(Next(m), 0);
    } else {
      TrailLast(Next(m), n - 1);
      assert [Next(m)] + (Trail(Next(m), n - 1) + [Iterate(m, n + 1)])
          == ([Next(m)] + Trail(Next(m), n - 1)) + [Iterate(m, n + 1)];
    }
  }

  /** One step more. */
  lemma LaterLast(s: Session, n: nat)
    ensures Later(s, n + 1) == Visit(Later(s, n), Next(Iterate(s.m, n)))
    ensures Later(Later(s, n), 1) == Later(s, n + 1)
  {
    hide Next, Trail, Iterate;
    IterateLast(s.m, n);
    TrailLast(s.m, n);
    LaterOnce(Later(s, n), 0);
    LaterOnce(Visit(Later(s, n), Next(Iterate(s.m, n))), 0);
    assert s.visited + (Trail(s.m, n) + [Iterate(s.m, n + 1)]) == (s.visited + Trail(s.m, n)) + [Iterate(s.m, n + 1)];
  }

  lemma GoesOn(m: Machine)
    requires Continues(m)
    ensures Step(m).err != Stop && Step(m).err != OutOfRange
  {
  }

  /** Steps do not look at the input. */
  lemma LaterReads(s: Session, n: nat, input: seq<Command>)
    ensures Later(s.(input := input), n) == Later(s, n).(input := input) && Later(s, n).input == s.input
  {
  }

  /** The prompt takes one step for each line `step` and none for the others, until a line
      leaves it or the input runs out. */
  lemma {:induction false} PromptLines(s: Session, i: nat)
    requires i <= |s.input| && forall command | command in s.input[..i] :: !Leaving(command)
    requires RunsFor(s.m, StepLines(s.input[..i]))
    ensures Prompt(s) == Prompt(Past(Later(s, StepLines(s.input[..i])), i))
    decreases i
  {
    hide Step, PastMemory, RunsFor, Later, Iterate, Continues;
    LaterOnce(s, 0);
    if i == 0 {
      assert s.input[0..] == s.input;
    } else {
      var head, rest := s.input[0], s.(input := s.input[1..]);
      assert s.input[..i][0] in s.input[..i];
      assert s.input[..i][0] == head && s.input[..i][1..] == rest.input[..i - 1];
      assert forall command | command in rest.input[..i - 1] :: command in s.input[..i];
      assert rest.input[i - 1..] == s.input[i..];
      var n := StepLines(rest.input[..i - 1]);
      if head == StepOne {
        RunsForSplit(s.m, n + 1);
        assert Step(s.m).err != Stop && Step(s.m).err != OutOfRange by {
          GoesOn(s.m);
        }
        PromptLines(Visit(rest, Next(s.m)), i - 1);
        LaterOnce(s, n);
        LaterReads(Visit(s, Next(s.m)), n, s.input[1..]);
      } else {
        PromptLines(rest, i - 1);
        LaterReads(s, n, s.input[1..]);
      }
    }
  }

  /** The four ways out: continue, exit, a `get` past memory, and no more input. */
  lemma PromptOutcome(s: Session)
    ensures s.input == [] ==> Prompt(s) == (s, Starved)
    ensures s.input != [] && s.input[0] == Continue ==> Prompt(s) == (Past(s, 1), Resumed)
    ensures s.input != [] && s.input[0] == Exit ==> Prompt(s) == (Past(s, 1), Exited)
    ensures s.input != [] && PastMemory(s.input[0]) ==> Prompt(s) == (Past(s, 1), Overread)
    ensures s.input != [] && s.input[0] == StepOne && Step(s.m).err == Stop ==>
              Prompt(s) == (Later(Past(s, 1), 1), Halted)
    ensures s.input != [] && s.input[0] == StepOne && Step(s.m).err == OutOfRange ==>
              Prompt(s) == (Later(Past(s, 1), 1), Faulty)
  {
    hide Step;
    if s.input != [] {
      LaterOnce(Past(s, 1), 0);
      LaterOnce(Visit(Past(s, 1), Next(s.m)), 0);
    }
  }

  /** A `get` of one cell needs its address inside memory, and one of several cells the
      end of its range; any other number of arguments, or a count of 0, reads nothing. */
  lemma GetLine(s: Session, args: seq<nat>)
    requires s.input != [] && s.input[0] == Get(args)
    ensures Prompt(s) == if (|args| == 1 && args[0] >= 0x1_0000)
                            || (|args| == 2 && args[1] > 0 && args[0] + args[1] > 0x1_0000)
                         then (Past(s, 1), Overread) else Prompt(Past(s, 1))
  {
  }

  // ---------------------------------------------------------------- the outer loop

  /** About to execute DBG with debugging on. */
  predicate AtBreakpoint(m: Machine) {
    m.debug && Ready(m) && Fetched(m).op == Dbg
  }

  lemma BreakpointReports(m: Machine)
    ensures Step(m).err == GoToDebugger <==> AtBreakpoint(m)
  {
    hide Exec, Resolve;
    if Ready(m) {
      Reports(m, Fetched(m).op, Address(m));
    }
  }

  /** With the simulator's table that is opcode 0x02. */
  lemma BreakpointOpcode(m: Machine)
    requires m.isa == Isa()
    ensures AtBreakpoint(m) <==> m.debug && m.mem[m.pc] == 0x02
  {
    hide Decode, Isa, Resolve, Step;
    OnlyBreakpoint(m.mem[m.pc]);
    BreakpointReports(m);
    Opcodes.HaltSteps(m);
  }

  /** How many of the first `k` steps execute a breakpoint. */
  function Breaks(m: Machine, k: nat): nat
    decreases k
  {
    if k == 0 then 0 else (if AtBreakpoint(m) then 1 else 0) + Breaks(Next(m), k - 1)
  }

  /** `k` steps with as many breakpoints among them as there are lines `continue` at the
      head of the input read those lines and nothing else. */
  lemma {:induction false} LinesPerBreakpoint(s: Session, k: nat, fuel: nat)
    requires k <= fuel && RunsFor(s.m, k)
    requires Breaks(s.m, k) <= |s.input|
    requires forall i | 0 <= i < Breaks(s.m, k) :: s.input[i] == Continue
    ensures Run(s, fuel) == Run(Past(Later(s, k), Breaks(s.m, k)), fuel - k)
    decreases k
  {
    hide Step, Prompt, RunsFor, Later, Iterate, AtBreakpoint, Continues;
    LaterOnce(s, 0);
    if k == 0 {
      assert s.input[0..] == s.input;
    } else {
      var after := Visit(s, Next(s.m));
      RunsForSplit(s.m, k);
      GoesOn(s.m);
      BreakpointReports(s.m);
      LaterOnce(s, k - 1);
      if AtBreakpoint(s.m) {
        var resumed := Past(after, 1);
        PromptOutcome(after);
        LinesPerBreakpoint(resumed, k - 1, fuel - 1);
        LaterReads(after, k - 1, s.input[1..]);
        assert s.input[1..][Breaks(s.m, k) - 1..] == s.input[Breaks(s.m, k)..];
      } else {
        LinesPerBreakpoint(after, k - 1, fuel - 1);
        LaterReads(after, k - 1, s.input);
      }
    }
  }

  /** The next breakpoint enters the prompt, in the state after the DBG. */
  lemma EntersPrompt(s: Session, fuel: nat)
    requires AtBreakpoint(s.m) && fuel > 0
    ensures var (after, outcome) := Prompt(Later(s, 1));
            Run(s, fuel) == if outcome == Resumed then Run(after, fuel - 1) else (after, outcome)
  {
    hide Step, Prompt;
    BreakpointReports(s.m);
    LaterOnce(s, 0);
    LaterOnce(Visit(s, Next(s.m)), 0);
  }

  lemma LaterMachine(s: Session, n: nat)
    ensures Later(s, n).m == Iterate(s.m, n)
  {
  }

  /** A session whose first breakpoint is its (j+1)-th step. Without input it is left
      waiting there; `exit` leaves it there; `continue` lets it run on. */
  lemma FirstBreakpoint(s: Session, j: nat, fuel: nat)
    requires RunsFor(s.m, j) && Breaks(s.m, j) == 0 && AtBreakpoint(Iterate(s.m, j)) && fuel > j
    ensures s.input == [] ==> Run(s, fuel) == (Later(s, j + 1), Starved)
    ensures s.input != [] && s.input[0] == Exit ==> Run(s, fuel) == (Past(Later(s, j + 1), 1), Exited)
    ensures s.input != [] && s.input[0] == Continue ==> Run(s, fuel) == Run(Past(Later(s, j + 1), 1), fuel - j - 1)
  {
    hide Step, Prompt, Run, RunsFor, Later, AtBreakpoint, Iterate;
    LinesPerBreakpoint(s, j, fuel);
    LaterReads(s, j, s.input);
    LaterReads(s, j + 1, s.input);
    LaterLast(s, j);
    assert s.input[0..] == s.input;
    LaterMachine(s, j);
    EntersPrompt(Later(s, j), fuel - j);
    PromptOutcome(Later(s, j + 1));
  }

  /** Without a breakpoint no line is read: the session is the undisturbed run, to where
      that halts or to the last step granted. */
  lemma NoBreakpoint(s: Session, k: nat, fuel: nat)
    requires RunsFor(s.m, k) && Breaks(s.m, k) == 0 && k <= fuel
    ensures k == fuel ==> Run(s, fuel) == (Later(s, k), Ran)
    ensures k < fuel && Step(Iterate(s.m, k)).err == Stop ==> Run(s, fuel) == (Later(s, k + 1), Halted)
    ensures Later(s, k).input == Later(s, k + 1).input == s.input
  {
    hide Step, Prompt, RunsFor, Breaks, Iterate, Later;
    LinesPerBreakpoint(s, k, fuel);
    LaterReads(s, k, s.input);
    LaterReads(s, k + 1, s.input);
    LaterMachine(s, k);
    LaterLast(s, k);
    assert s.input[0..] == s.input;
  }

  lemma FromStart(m: Machine, n: nat)
    ensures Later(Session(m, [], []), n) == Session(Iterate(m, n), [], Trail(m, n))
  {
    assert [] + Trail(m, n) == Trail(m, n);
  }

  /** With c lines `continue`, a session passes c breakpoints and stops at the next one for
      want of input, or halts where `execute` does if there is none. */
  lemma ContinuesThrough(m: Machine, c: nat, k: nat, fuel: nat)
    requires RunsFor(m, k) && Breaks(m, k) == c && k < fuel
    ensures var s := Session(m, seq(c, _ => Continue), []);
            && (AtBreakpoint(Iterate(m, k)) ==>
                  Run(s, fuel) == (Session(Iterate(m, k + 1), [], Trail(m, k + 1)), Starved))
            && (Step(Iterate(m, k)).err == Stop ==>
                  Run(s, fuel) == (Session(Iterate(m, k + 1), [], Trail(m, k + 1)), Halted))
  {
    hide Step, Prompt, RunsFor, AtBreakpoint, Iterate, Later;
    var s, start := Session(m, seq(c, _ => Continue), []), Session(m, [], []);
    LaterReads(s, k, []);
    LinesPerBreakpoint(s, k, fuel);
    assert s.input[c..] == [];
    assert Past(Later(s, k), c) == Later(start, k);
    LaterMachine(start, k);
    LaterLast(start, k);
    LaterReads(start, k + 1, []);
    FromStart(m, k + 1);
    if AtBreakpoint(Iterate(m, k)) {
      EntersPrompt(Later(start, k), fuel - k);
      PromptOutcome(Later(start, k + 1));
    }
  }
}
