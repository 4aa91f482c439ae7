/** The debugger object (debugger.h and debugger.cpp): a prompt loop inside a run loop,
    both stepping the same CPU object. */
module DebuggerObject {
  import opened Bytes
  import opened InstructionSet
  import opened MachineModel
  import opened Cpu
  import opened DebuggerLoop

  class Debugger {
    const cpu: CPU6502
    /** The lines standard input still holds. */
    var input: seq<Command>
    /** The machine after each step taken so far. */
    ghost var visited: seq<Machine>

    predicate Valid() {
      cpu.Valid()
    }

    ghost function Now(): Session
      requires Valid()
      reads this, cpu, cpu.P, cpu.memory, cpu.memory.cells
    {
      Session(cpu.State(), input, visited)
    }

    constructor (cpu: CPU6502, input: seq<Command>)
      requires cpu.Valid()
      ensures Valid() && this.cpu == cpu
      ensures Now() == Session(cpu.State(), input, [])
    {
      this.cpu := cpu;
      this.input := input;
      visited := [];
    }

    /** One CPU step, recorded. */
    method StepCpu() returns (err: InstructionErr)
      requires Valid()
      modifies this`visited, cpu, cpu.P, cpu.memory, cpu.memory.cells
      ensures StepResult(Now().m, err) == Step(old(Now()).m)
      ensures Now() == Visit(old(Now()), Step(old(Now()).m).m)
    {
      hide Step;
      err := cpu.Step();
      visited := visited + [cpu.State()];
    }

    /** Shows `count` cells from `start`. The program reads on unchecked past the end of
        memory; here the first such read ends the loop, and `inside` tells. */
    method PrintMemory(start: nat, count: nat) returns (shown: seq<byte>, inside: bool)
      requires Valid()
      ensures inside <==> count == 0 || start + count <= MEMORY_SIZE
      ensures inside && count > 0 ==> shown == cpu.memory.cells[start..start + count]
      ensures !inside ==> shown == if start < MEMORY_SIZE then cpu.memory.cells[start..] else []
      ensures count == 0 ==> shown == []
    {
      shown := [];
      for i := 0 to count
        invariant |shown| == i
        invariant i > 0 ==> start + i <= MEMORY_SIZE && shown == cpu.memory.cells[start..start + i]
      {
        if start + i >= cpu.memory.Size() {
          return shown, false;
        }
        shown := shown + [cpu.memory.Read(start + i)];
      }
      inside := true;
    }

    /** The prompt. It returns instead of leaving the process on `Exit`, and instead of
        prompting for ever once the input has run out. */
    method GoToDebugger() returns (outcome: Outcome)
      requires Valid()
      modifies this, cpu, cpu.P, cpu.memory, cpu.memory.cells
      ensures (Now(), outcome) == Prompt(old(Now()))
    {
      hide Step, cpu.State;
      while |input| > 0
        invariant Prompt(Now()) == Prompt(old(Now()))
        decreases |input|
      {
        var command := input[0];
        input := input[1..];
        match command {
          case StepOne =>
            var err := StepCpu();
            if err == Stop {
              return Halted;
            } else if err == OutOfRange {
              return Faulty;
            }
          case Continue =>
            return Resumed;
          case Exit =>
            return Exited;
          case Get(args) =>
            if |args| == 1 || |args| == 2 {
              var shown, inside := PrintMemory(args[0], if |args| == 1 then 1 else args[1]);
              if !inside {
                return Overread;
              }
            }
          case Blank | Invalid | Dump | Help =>
        }
      }
      return Starved;
    }

    /** The outer loop, for at most `fuel` rounds. */
    method Run(fuel: nat) returns (outcome: Outcome)
      requires Valid()
      modifies this, cpu, cpu.P, cpu.memory, cpu.memory.cells
      ensures (Now(), outcome) == DebuggerLoop.Run(old(Now()), fuel)
    {
      hide Step, Prompt;
      var left := fuel;
      while cpu.PC < cpu.memory.Size() && left > 0
        invariant DebuggerLoop.Run(Now(), left) == DebuggerLoop.Run(old(Now()), fuel)
        decreases left
      {
        var err := StepCpu();
        if err == InstructionErr.GoToDebugger {
          outcome := GoToDebugger();
          if outcome != Resumed {
            return;
          }
        } else if err == Stop {
          return Halted;
        } else if err == OutOfRange {
          return Faulty;
        }
        left := left - 1;
      }
      return Ran;
    }
  }
}
