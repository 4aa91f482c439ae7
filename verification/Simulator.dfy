/** The whole simulator put together as main.cpp does: an image in memory, a CPU reset on
    it, and the debugger's run loop over that CPU. */
module Simulator {
  import opened Bytes
  import opened MachineModel
  import opened RunLoop
  import opened DebuggerLoop
  import opened InstructionSet
  import opened Breakpoints
  import opened OperationLaws
  import Hello
  import Device = Memory
  import Cpu
  import DebuggerObject

  /** What an image does, given the debug switch and the lines of standard input. */
  function Outcomes(image: Memory, debug: bool, input: seq<Command>, fuel: nat): (Session, Outcome) {
    DebuggerLoop.Run(Session(Reset(image, Device.DEFAULT_OUTPUT_ADDRESS, debug), input, []), fuel)
  }

  /** Builds the objects and runs them for at most `fuel` rounds. */
  method RunImage(image: seq<byte>, debug: bool, input: seq<Command>, fuel: nat)
    returns (outcome: Outcome, printed: seq<byte>)
    requires |image| == MEMORY_SIZE
    ensures outcome == Outcomes(image, debug, input, fuel).1
    ensures printed == Outcomes(image, debug, input, fuel).0.m.log
  {
    hide Reset, DebuggerLoop.Run;
    var memory := new Device.GPMemory(image);
    var cpu := new Cpu.CPU6502(memory, debug);
    ghost var m := Reset(image, Device.DEFAULT_OUTPUT_ADDRESS, debug);
    assert cpu.State() == m by {
      ResetLog(image, Device.DEFAULT_OUTPUT_ADDRESS, debug);
    }
    var debugger := new DebuggerObject.Debugger(cpu, input);
    outcome := debugger.Run(fuel);
    printed := memory.log;
    assert debugger.Now().m.log == printed;
  }

  lemma ResetLog(image: Memory, dev: word, debug: bool)
    ensures Reset(image, dev, debug).(log := []) == Reset(image, dev, debug)
  {
  }

  /** The simulator started on hello.s without the debug switch prints the message and
      halts, whatever is on standard input. */
  lemma RunsHello(image: Memory, message: seq<byte>, input: seq<Command>, fuel: nat)
    requires Hello.Loaded(image) && |message| <= 255 && fuel >= 5 * |message| + 4
    requires 0 !in message && image[Hello.MESSAGE..Hello.MESSAGE + |message| + 1] == message + [0]
    ensures var (s, outcome) := Outcomes(image, false, input, fuel);
            && outcome == Halted && s.m.log == message && s.input == input
            && Hello.OnlyDevice(image, s.m.mem)
  {
    hide Step, Hello.Loaded, Reset, Hello.OnlyDevice;
    var m := Reset(image, Device.DEFAULT_OUTPUT_ADDRESS, false);
    assert !m.debug by {
      NotDebugging(image, Device.DEFAULT_OUTPUT_ADDRESS);
    }
    Hello.PrintsMessage(image, false, message);
    QuietIsExecute(Session(m, input, []), fuel);
  }

  lemma AtFirst(m: Machine)
    ensures RunsFor(m, 0) && Breaks(m, 0) == 0 && Iterate(m, 0) == m
  {
  }

  lemma OneVisit(s: Session)
    ensures Later(s, 1).input == s.input && |Later(s, 1).visited| == |s.visited| + 1
  {
    hide Step;
    assert Trail(s.m, 1) == [Next(s.m)] + Trail(Next(s.m), 0);
  }

  lemma BreaksAtOnce(m: Machine, input: seq<Command>, fuel: nat)
    requires AtBreakpoint(m) && fuel > 0
    ensures var (s, outcome) := DebuggerLoop.Run(Session(m, input, []), fuel);
            && (input == [] ==> outcome == Starved && |s.visited| == 1)
            && (input != [] && input[0] == Exit ==> outcome == Exited && |s.visited| == 1 && s.input == input[1..])
  {
    hide Step, Later, AtBreakpoint, DebuggerLoop.Run, RunsFor, Breaks, Iterate;
    AtFirst(m);
    FirstBreakpoint(Session(m, input, []), 0, fuel);
    OneVisit(Session(m, input, []));
  }

  lemma ResetAtDbg(image: Memory, dev: word)
    requires image[image[0xFFFC] as int + 0x100 * image[0xFFFD] as int] == 0x02
    ensures AtBreakpoint(Reset(image, dev, true))
  {
    hide Reset, AtBreakpoint, Isa;
    ResetState(image, dev, true);
    BreakpointOpcode(Reset(image, dev, true));
  }

  /** The debug switch and standard input reach the debugger: an image whose reset vector
      points at a DBG is left waiting after one step without input and left by `exit`;
      with the switch off no line is read. */
  lemma BreaksAtReset(image: Memory, input: seq<Command>, fuel: nat)
    requires fuel > 0 && image[image[0xFFFC] as int + 0x100 * image[0xFFFD] as int] == 0x02
    ensures var (s, outcome) := Outcomes(image, true, input, fuel);
            && (input == [] ==> outcome == Starved && |s.visited| == 1)
            && (input != [] && input[0] == Exit ==> outcome == Exited && |s.visited| == 1 && s.input == input[1..])
    ensures Outcomes(image, false, input, fuel).0.input == input
  {
    hide Reset, AtBreakpoint, DebuggerLoop.Run, Execute;
    ResetAtDbg(image, Device.DEFAULT_OUTPUT_ADDRESS);
    BreaksAtOnce(Reset(image, Device.DEFAULT_OUTPUT_ADDRESS, true), input, fuel);
    NotDebugging(image, Device.DEFAULT_OUTPUT_ADDRESS);
    QuietIsExecute(Session(Reset(image, Device.DEFAULT_OUTPUT_ADDRESS, false), input, []), fuel);
  }

  lemma NotDebugging(image: Memory, dev: word)
    ensures !Reset(image, dev, false).debug
  {
  }
}
