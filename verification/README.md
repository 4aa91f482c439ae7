# Verified model of a W65C02S simulator

The simulated computer is a CPU object (registers A, X, Y, S, the status register P, the
program counter), 64 KiB of memory with a memory-mapped print device, a table of 212
opcodes, a run loop, and a debugger whose prompt steps the same CPU.

The model has two levels. `Machine.dfy` gives the machine as a value and one step of it in
plain terms: flags are booleans, addresses are integers, arithmetic is what the carry and
overflow flags mean. `Status.dfy`, `Memory.dfy`, `Cpu.dfy` and `Debugger.dfy` hold classes in
the program's own shape: a packed status byte changed with masks, a memory array overwritten
in place, one method for each opcode body, loops that step an object. Every method is proved to
change the object exactly as the value level says. The theorems about whole programs and
whole runs are then stated once, on the value level. What each opcode, operation and addressing
mode does there is pinned in turn by laws that speak of memory cells, registers and bits alone.

A machine carries its opcode table, as the CPU object does. The theorems of `RunLoop.dfy`,
`DebuggerLoop.dfy`, `Effects.dfy` and `Calls.dfy` hold for every table; the program runs use the
simulator's own. The print log is the device's share of standard output, and standard input a
list of parsed commands.

| file | content |
|---|---|
| `Bytes.dfy` | bit operations, `byte_result` and `address` operators |
| `Status.dfy` | status byte, flag record, the PSR class |
| `Alu.dfy` | meaning of ADC, SBC and the rotates; the program's flag formulas |
| `InstructionSet.dfy` | addressing modes, lengths, the opcode table and its regular part |
| `Machine.dfy` | the machine, operand addresses, every operation, one step, iterated steps |
| `Memory.dfy`, `Cpu.dfy` | the memory and CPU objects |
| `RunLoop.dfy` | what the run loop computes |
| `DebuggerLoop.dfy`, `Debugger.dfy` | the debugger's loops, transparency, the debugger object |
| `Breakpoints.dfy` | when the debugger reads a line of input and what the line does |
| `Addressing.dfy` | exactly which cells are read to find an operand, and when one lies past memory |
| `Indexing.dfy` | what each mode and index register points at; instruction lengths |
| `Laws.dfy` | the result and the flags of every operation |
| `Effects.dfy` | stores, printing, program counter and S over every operation and run |
| `StackRing.dfy`, `Calls.dfy` | the page-zero stack as a ring; calls and interrupts over runs |
| `MultiByte.dfy` | n-byte addition, subtraction, comparison and rotates |
| `Opcodes.dfy` | single steps from the bytes in memory |
| `Programs.dfy`, `Hello.dfy`, `AddLoop.dfy` | idioms, and two machine-code programs run to the end |
| `Simulator.dfy` | the objects wired together as `main.cpp` does |

## Where the code differs from its documentation

The model follows the code.

- The stack is in page zero (`6502cpu.cpp:25` and `:42` build the address from the byte S), not
  in page one as `README.md:36-37` says (`Effects.StackIsInPageZero`).
- `6502cpu.cpp:48` says the run loop ends at the end of memory. The 16-bit program counter never
  gets there: the loop ends at STP only, and an unknown opcode keeps it going for ever without
  changing anything (`RunLoop.ExecuteMeaning`, `RunLoop.UnknownIsFixedPoint`).
- `gp_memory.cpp:18` and `:29` say that reads out of bounds throw; `gp_memory.cpp:31` does not
  check. With a 64 KiB memory there are two such reads. The only one a CPU step makes is that of
  the indirect JMP through 0xFFFF (`Addressing.OnlyJmpFaults`). The other is the debugger's `get`
  (`debugger.cpp:15` and `:27`), when its count is not 0 and its start and count add up to more
  than 0x10000, as in `get 10000` (`DebuggerLoop.OverreadsExactly`). What happens then is
  undefined; the model ends the run there, with `OutOfRange`, which is not a value of the
  program's `InstructionErr`, and with the outcome `Overread`.
- `README.md:44` calls status bit 5 a constant one. `get_bit` always reports it set, but PLP and
  RTI replace the raw byte: bit 5 is whatever they pull (`Calls.Bit5Exact`). PHA then PLP right
  after reset clears it (`Calls.Bit5CanBeLost`). It is set all along a run exactly when it is set
  at first and every byte PLP or RTI pulls in that run has it (`Calls.Bit5Always`), as in the
  matched runs of `Calls.Bit5StaysSet`.
- JSR pushes its own address and RTS adds 3; BRK pushes its own address and RTI adds 1.
- CPX, CPY and CMP 0xD2 put the borrow in C and always set Z; the immediate CPX and CPY compare
  with the low byte of the operand's address; BBR and BBS test the byte at the branch target,
  BBS always its bit 0; opcode 0x1C is named TSB and clears bits; LSR leaves Z alone; LDA 0xAD,
  the transfers and the pulls set no flags. These are modelled as coded.
- `main.cpp:36-91` starts the run while it looks at its first argument, so the flags that
  `README.md:82` puts after the file name are never read. `Simulator.RunImage` takes the debug
  switch as a parameter.
- An opcode listed twice in the table keeps its first entry, as `std::unordered_map` does.

## Model

| member | source | states |
|---|---|---|
| Calls.CallReturns | 6502isa.cpp:176-255 | For any run from a JSR, BRK or push that keeps the stack discipline until its frames are back where they were, nested calls, interrupts and pushes included: the step that closes it is the matching RTS, RTI or pull; RTS resumes at the JSR's address + 3, RTI at the BRK's + 1 with every flag (raw bit 5 too) restored, a pull returns the byte pushed, S is restored and the stack below is intact |
| Calls.SubroutineReturns | 6502isa.cpp:208-255 | For a JSR: such a run is closed by an RTS and resumes at the JSR's address + 3 with S restored |
| Calls.InterruptReturns | 6502isa.cpp:176-237 | For a BRK: it is closed by an RTI and resumes at the BRK's address + 1 with S and the exact status byte restored |
| Calls.TrackAgrees | 6502cpu.cpp:24-43 | Every operation that keeps the discipline (matched returns, at most 256 bytes, no TXS, no store to a live stack cell) keeps memory and S in agreement with the list of open frames |
| Calls.RunAgrees | 6502cpu.cpp:24-43 | The same agreement after any number of steps |
| Calls.SmallestCall | 6502isa.cpp:208-255 | As a program: a JSR whose operand bytes name a cell holding 0x60 (not one of the two cells it pushes to) is such a run of two steps; it resumes three bytes on with every register, flag and other cell as before |
| Calls.SmallestInterrupt | 6502isa.cpp:176-237 | As a program: a BRK with 0x40 where the bytes at 0xFFFE point is such a run of two steps and resumes one byte on with every register and flag as before |
| Opcodes.JsrEnters | 6502isa.cpp:208-217 | 0x20 at PC: PC becomes the two bytes after it, low byte first; its own address lies below S, high byte first; S drops by 2; nothing else changes |
| Opcodes.RtsLeaves | 6502isa.cpp:248-255 | 0x60 at PC: PC becomes the address S points at plus 3, S rises by 2 |
| Opcodes.BrkEnters | 6502isa.cpp:176-189 | 0x00 at PC: PC becomes the address at 0xFFFE, its own address and the status byte lie below S, S drops by 3, B is set |
| Opcodes.RtiLeaves | 6502isa.cpp:228-237 | 0x40 at PC: the status byte S points at and the address above it plus 1, S rises by 3 |
| Calls.Bit5Exact | 6502isa.cpp:228-237 | A step leaves raw status bit 5 alone, except that RTI and PLP make it bit 5 of the byte they pull |
| Calls.Bit5Always | 6502isa.cpp:228-237 | Raw status bit 5 is set in every state of the first k steps if and only if it is set at the start and each of those steps that is a PLP or RTI pulls a byte with bit 5 set |
| Calls.Bit5CanBeLost | 6502isa.cpp:886-905 | A program for which it is not: from reset, PHA at 0x8000 and PLP at 0x8001 leave bit 5 clear after two steps, inside the stack discipline |
| Calls.Bit5StaysSet | psr.h:13 | From reset, raw bit 5 stays set along any disciplined run whose PLPs pull what PHPs pushed |
| AddLoop.AddsNumbers | 6502isa.cpp:925-990 | The loop LDA a,X / ADC b,X / STA c,X / INX / DEY / BNE with X = 0, Y = n (1..255) and any carry runs exactly n rounds and leaves; the n bytes at c and C are then the sum of the two n-byte numbers and the carry-in; no other cell changes. The regions may wrap and the result may replace an operand |
| AddLoop.Counting | 6502isa.cpp:925-938 | INX, DEY and BNE carry C through a round unchanged and branch back exactly while Y is not zero |
| Hello.PrintsMessage | examples/hello.s:8-20 | From reset, for every message of n <= 255 non-zero bytes and a zero, the run loop stops after exactly 5n + 4 steps having printed exactly the message; only the device's cell changes |
| Hello.NeverStops | examples/hello.s:10-15 | If the 256 bytes from `message` hold no zero the program never stops and prints them cyclically |
| DebuggerLoop.Transparent | debugger.cpp:33-128 | For every program and command list, the states the debugger visits are, one by one, those of `execute` with debugging off, never past its end; a halt is the halt of `execute` in the same final state; any other ending, a `get` past memory included, leaves it in a state `execute` passes through |
| DebuggerLoop.SameHalt | debugger.h:133-149 | If `execute` stops after k steps, a session of at least k rounds halts after the same k steps in the same state, unless it runs out of commands or a line of its input is an exit or a `get` past memory and ends it |
| DebuggerLoop.OverreadsExactly | debugger.cpp:71-97 | The prompt reads past memory if and only if it gets as far as a `get` whose count is not 0 and whose range ends past 0x10000 |
| DebuggerLoop.QuietIsExecute | debugger.h:133-149 | With debugging off the prompt is never entered and the debugger's run is `execute`, step for step and in its outcome |
| Breakpoints.LinesPerBreakpoint | debugger.h:133-149 | k steps that execute DBG c times with debugging on, and end nothing, read exactly c lines, each `continue`: the session goes on in the state k steps on, with those lines gone |
| Breakpoints.FirstBreakpoint | debugger.h:137-142 | The first DBG executed with debugging on enters the prompt one step later: without input the session is left waiting there, `exit` leaves it there, `continue` is consumed and lets it run on |
| Breakpoints.ContinuesThrough | debugger.h:133-149 | With c lines `continue` a session passes c breakpoints and is left waiting at the next, or halts at the STP that comes first, in the state that many steps from the start |
| Breakpoints.NoBreakpoint | debugger.h:133-149 | While no breakpoint is executed no line is read |
| Breakpoints.PromptLines | debugger.cpp:36-127 | The prompt steps once for each line `step` and does nothing for dump, help, blank, unknown and harmless `get` lines, until a line leaves it |
| Breakpoints.PromptOutcome | debugger.cpp:98-123 | What leaves it: `continue`, `exit`, a `get` past memory, a step that halts, no more input |
| Breakpoints.GetLine | debugger.cpp:71-97 | A `get` with one argument above 0xFFFF, or with two whose count is not 0 and whose sum is above 0x10000, reads past memory; any other only prompts again |
| Breakpoints.BreakpointOpcode | 6502isa.cpp:190-197 | With the simulator's table a breakpoint is opcode 0x02 and the debug switch |
| Simulator.RunImage | main.cpp:27-91 | Building memory, CPU and debugger from an image and running them prints at the device, and ends, as the run function says |
| Simulator.BreaksAtReset | main.cpp:27-91 | An image whose reset vector points at a DBG: with the debug switch the simulator waits after one step, or leaves by `exit`; without it no line of input is read |
| Simulator.RunsHello | examples/hello.s:8-20 | The simulator started on hello.s prints the message and halts, whatever waits on standard input |
| DebuggerLoop.StepQuiet | 6502isa.cpp:190-197 | The debug switch changes what DBG reports and nothing else, over every operation |
| DebuggerObject.Debugger.GoToDebugger | debugger.cpp:33-128 | The prompt loop leaves the CPU, the unread input and the visited states as the session function says, and ends as it says |
| DebuggerObject.Debugger.PrintMemory | debugger.cpp:8-31 | It shows the `count` cells from `start`, in order, when they all lie inside memory, and every cell up to the end of memory before the first read past it |
| DebuggerObject.Debugger.Run | debugger.h:133-149 | So does the outer loop |
| RunLoop.ExecuteMeaning | 6502cpu.cpp:52-62 | The loop has stopped within `fuel` steps exactly when some k-th step is the first to report Stop, and then in the state k steps from the start; otherwise it is still running after `fuel` steps |
| RunLoop.StopMeansStp | 6502isa.cpp:1243-1246 | Only STP reports Stop |
| RunLoop.UnknownIsFixedPoint | 6502cpu.cpp:75-81 | A machine about to fetch an opcode missing from the table never changes and never stops |
| Cpu.CPU6502.Execute | 6502cpu.cpp:52-62 | The loop over the CPU object ends in the state and with the outcome of the run-loop function |
| Cpu.CPU6502.Step | 6502cpu.cpp:70-253 | One step of the object is one step of the machine: same registers, flags, memory, printing and report |
| Cpu.CPU6502.ResolveOperand | 6502cpu.cpp:92-242 | The address computed with the byte and address operators is the plain integer one in all sixteen modes |
| Cpu.CPU6502.ExecuteOp | 6502isa.cpp:175-1675 | Every opcode body has the effect of the operation it stands for |
| Cpu.CPU6502.ExecAdc | 6502isa.cpp:11-33 | ADC on the packed status byte is addition with carry, with C the carry-out and V signed overflow |
| Cpu.CPU6502.ExecSbc | 6502isa.cpp:55-76 | SBC is subtraction with borrow, with C the inverted borrow and V signed overflow |
| Cpu.CPU6502.ExecCmp | 6502isa.cpp:123-132 | CMP sets C, Z and N from the comparison and changes nothing else |
| Cpu.CPU6502.ExecRolMem | 6502isa.cpp:134-147 | ROL in memory, by shift, or and mask tests, is the rotate through carry |
| Cpu.CPU6502.ExecRorMem | 6502isa.cpp:149-163 | ROR likewise |
| Cpu.CPU6502.ExecBrk | 6502isa.cpp:176-189 | BRK pushes its address and the status byte, then sets B and jumps through 0xFFFE |
| Cpu.CPU6502.ExecRti | 6502isa.cpp:228-237 | RTI takes the raw status byte and the address + 1 |
| Cpu.CPU6502.PushStack | 6502cpu.cpp:39-43 | Push decrements S, then stores in page zero, printing if that cell is the device |
| Cpu.CPU6502.PopStack | 6502cpu.cpp:24-30 | Pop reads, then increments S |
| Cpu.CPU6502.UpdateFlags | 6502cpu.cpp:12-15 | Z and N follow the value, no other flag moves |
| Cpu.CPU6502.constructor | 6502cpu.h:58-85 | Reset: registers zero, S = 0xFF (0x1FF truncated), P = 0x24, PC from 0xFFFC |
| Memory.GPMemory.Write | gp_memory.cpp:39-45 | One cell changes; the byte is printed exactly when the address is the device's |
| Addressing.ReadsSuffice | 6502cpu.cpp:92-242 | The cells listed for a mode are enough, in order: two machines with the same registers that agree on the first i of them read the same cell next, and when they agree on all of them resolve the operand alike |
| Addressing.ReadsNeeded | 6502cpu.cpp:92-242 | None is superfluous: for each listed cell not listed before, two memories that agree with the machine on the earlier ones and with each other everywhere else resolve the operand differently |
| Addressing.ReadsInside | 6502cpu.cpp:92-242 | Every one of these indices is below 0x10000 exactly when the operand resolves, which only an indirect pointer of 0xFFFF prevents |
| Addressing.OnlyJmpFaults | 6502isa.cpp:1291-1296 | With the simulator's table a step reads past memory exactly when it is opcode 0x6C with pointer 0xFFFF |
| Effects.StepChanges | 6502isa.cpp:175-1675 | Over every operation, memory and the print log change by exactly the operation's list of stores |
| Effects.StepFrame | 6502cpu.cpp:70-253 | A cell that changes in a step is its operand address or one of the three page-zero cells below S |
| Effects.StepAdvances | instruction_types.h:29-53 | PC moves by the mode's length unless the instruction set it |
| Indexing.NextInstruction | instruction_types.h:29-53 | Unless the instruction set it, PC moves past the opcode and the bytes after it that the operand depends on (an immediate operand is one such byte) |
| Indexing.LengthIsOperandBytes | instruction_types.h:29-53 | The length of every mode is 1 plus the number of bytes among the next two on which the operand depends, wherever the code lies clear of the zero page; immediate is 2, and the indexed JMP is 1 although it depends on two |
| Indexing.PlainModes | 6502cpu.cpp:92-242 | The modes without an index point where the operand bytes say: a cell, the word a pointer leads to, a signed distance from the next instruction |
| Indexing.IndexZero | 6502cpu.cpp:100-242 | With the index register at 0 each indexed mode is the mode without the index |
| Indexing.IndexStep | 6502cpu.cpp:100-242 | One more in the mode's own index register moves the operand one cell up, round 64 KiB or round the zero page |
| Indexing.OtherRegisters | 6502cpu.cpp:92-242 | No register but the mode's own has any influence on the operand |
| Indexing.IndexedPointers | 6502cpu.cpp:100-242 | In the indexed-indirect modes X moves the pointer: modulo 256 in the zero page, modulo 65536 in the JMP |
| OperationLaws.OneResult | 6502isa.cpp:11-1675 | Every operation changes one register or one cell at most, the stack operations S and stack cells besides |
| OperationLaws.ResultFlags | 6502isa.cpp:11-1675 | Over every operation: N and Z describe the result where they are set from it, and every flag not named is kept |
| OperationLaws.Equations | 6502isa.cpp:11-163 | ADC, SBC, the shifts and rotates, in memory and in A, as equations between result, carry and operand in any cell |
| OperationLaws.Comparisons | 6502isa.cpp:123-132 | CMP puts order in C and equality in Z; CMP 0xD2, CPX and CPY put the borrow in C and always set Z; N is the sign of the byte difference; V of ADC and SBC is signed overflow |
| OperationLaws.Counting | 6502isa.cpp:755-1226 | n increments or decrements of X, Y, A or a cell move it by n modulo 256 and change nothing else but flags; C is set once INX, INY or DEY has wrapped |
| OperationLaws.LoadsAndStores | 6502isa.cpp:282-1564 | Loads copy the operand's byte to their register, stores the register or zero to the operand's cell |
| OperationLaws.Transfers | 6502isa.cpp:939-1213 | Transfers copy one register to another; no other control operation moves a register or a cell |
| OperationLaws.Pulls | 6502isa.cpp:886-1242 | Pulls take the byte S points at, PLP and RTI as the status byte |
| OperationLaws.Pushes | 6502isa.cpp:871-1232 | Pushes store their register below S and nothing else; PHP the status byte with B set |
| OperationLaws.BitByBit | 6502isa.cpp:345-870 | AND, ORA, EOR, TSB, TRB, RMB and SMB on each single bit |
| OperationLaws.BitTests | 6502isa.cpp:487-1284 | Z after TSB, TRB and the masking BIT says that A and the operand share no bit; the other BIT takes Z, N and V from the operand, as coded |
| OperationLaws.StatusLayout | psr.h:20-29 | Which bit of the status byte is which flag |
| OperationLaws.ResetState | 6502cpu.h:58-85 | Reset: A, X and Y zero, S = 0xFF, status byte 0x24, PC from 0xFFFC, nothing printed |
| Opcodes.BranchStep | 6502isa.cpp:198-344 | The eight conditional branches go to the signed distance from the next instruction exactly when N, V, C or Z is as the opcode says, and change PC only |
| Opcodes.BitBranchStep | 6502isa.cpp:1565-1628 | BBR and BBS test the byte at the branch target, BBS always its bit 0 |
| Opcodes.FlagStep | 6502isa.cpp:880-996 | The seven flag opcodes set or clear their flag and move on by one |
| Opcodes.JumpStep | 6502isa.cpp:1285-1302 | The three jumps, from the bytes in memory |
| Opcodes.HaltSteps | 6502isa.cpp:190-197 | DBG and STP change PC only; DBG reports to the debugger when debugging is on |
| Opcodes.TransferStep | 6502isa.cpp:939-1213 | The six transfers from their opcodes: no flag changes |
| Opcodes.PushStep | 6502isa.cpp:871-1232 | The four pushes from their opcodes |
| Opcodes.PullStep | 6502isa.cpp:886-1242 | The four pulls from their opcodes: no flag changes but by PLP |
| Programs.CompareAndBranch | 6502isa.cpp:123-344 | CMP #v and a branch, from the bytes: BEQ goes exactly when A = v, BNE when not, BCS when A >= v, BCC when A < v, BMI and BPL by the sign of the byte difference, BVS and BVC by the V before; nothing but PC, C, Z and N changes |
| Programs.RegistersSurvive | 6502isa.cpp:899-1213 | PHA TXA PHA TYA PHA, then any code that leaves S and those three cells alone, then PLA TAY PLA TAX PLA: A, X, Y and S are back |
| Effects.RunChanges | gp_memory.cpp:39-45 | Along every run the log is the ordered list of bytes stored at the device by any instruction, and memory is the loaded image with the run's stores applied |
| Effects.DeviceCell | gp_memory.cpp:39-45 | The device's cell holds the last byte printed, or its loaded value |
| Effects.UntargetedCell | gp_memory.cpp:39-45 | A cell no store of the run targets keeps its loaded value |
| Effects.StackConserved | 6502cpu.cpp:24-43 | Along any run without TXS, S is its start less the bytes pushed plus the bytes pulled, modulo 256 |
| Effects.StackIsInPageZero | 6502cpu.cpp:42 | Every store of a stack operation is below address 0x100 |
| StackRing.RingIsLifo | 6502cpu.cpp:24-43 | Any pushes and pops of depth 0..256 return what an unbounded stack would, wherever S wraps, and change only the page-zero cells pushed to |
| StackRing.FullRingOverwrites | 6502cpu.cpp:39-43 | The 257th byte overwrites the deepest one |
| MultiByte.AdcAdds | 6502isa.cpp:11-33 | ADC over n bytes adds: val(zs) + 256^n c' = val(xs) + val(ys) + c |
| MultiByte.AdcOverflows | 6502isa.cpp:19-26 | The last V is set exactly when the n-byte two's-complement sum plus carry overflows |
| MultiByte.SbcSubtracts | 6502isa.cpp:55-76 | SBC over n bytes subtracts, with C as not-borrow at both ends |
| MultiByte.SbcSigns | 6502isa.cpp:67-70 | The last V is signed overflow of the n-byte difference, and N differs from V exactly when the true difference is negative |
| MultiByte.SbcMatchesAdc | 6502isa.cpp:55-76 | SBC of a byte leaves A and every flag as ADC of its complement does |
| MultiByte.SbcUndoesAdc | 6502isa.cpp:11-76 | Adding then subtracting an n-byte number gives the first one back, carries included |
| MultiByte.ComparesUnsigned | 6502isa.cpp:123-132 | CMP on the low byte and SBC on the rest sets C exactly when x >= y unsigned |
| MultiByte.ComparesSigned | 6502isa.cpp:123-132 | From two bytes up, N differs from V exactly when x < y signed |
| MultiByte.RolDoubles | 6502isa.cpp:134-147 | n-byte ROL: val' + 256^n c' = 2 val + c |
| MultiByte.RorUndoesRol | 6502isa.cpp:149-163 | n-byte ROR, high byte first, undoes n-byte ROL on bytes and carry |
| MultiByte.RolUndoesRor | 6502isa.cpp:134-163 | And the other way round |
| MultiByte.AslIsRol | 6502isa.cpp:43-53 | ASL is ROL of a clear carry in value and carry |
| MultiByte.LsrIsRor | 6502isa.cpp:691-705 | LSR is ROR of a clear carry in value and carry |
| Alu.AdcFormulas | 6502isa.cpp:15-26 | The `byte_result` sum and the sign test compute the sum, the carry and signed overflow |
| Alu.SbcFormulas | 6502isa.cpp:62-70 | The 16-bit difference and the exclusive-or test compute the difference, the inverted borrow and signed overflow |
| Alu.RolFormulas | 6502isa.cpp:137-139 | Shift, or and mask test are the left rotate |
| Alu.RorFormulas | 6502isa.cpp:152-155 | Shift, or and mask test are the right rotate |
| Status.PackedRefinesFlags | psr.cpp:9-48 | Any sequence of `set_bit` and `update_bit` on the packed byte acts as on eight independent booleans; raw bit 5 is kept and `unused` reads true |
| Status.PackUnpack | psr.cpp:50-54 | The packed byte and the flag record determine each other |
| Status.PSR.SetBit | psr.cpp:23-33 | One flag changes in the packed byte, none if it is `unused` |
| Status.PSR.UpdateBit | psr.cpp:41-48 | One flag is replaced by the function of its value |
| Status.PSR.SetByte | psr.cpp:52-54 | The byte is taken with bit 5 forced on |
| InstructionSet.AluGrid | 6502isa.cpp:345-1432 | The opcodes ending in binary 01 are eight operations by eight modes, except 0x89 and 0xAD |
| InstructionSet.ShiftGrid | 6502isa.cpp:675-1564 | The read-modify-write opcodes are six operations by four modes |
| InstructionSet.BitColumns | 6502isa.cpp:807-1628 | RMB, SMB, BBR and BBS: the high digit is the bit number |
| InstructionSet.BranchColumn | 6502isa.cpp:198-344 | The conditional branches: the top bits select flag and value |
| InstructionSet.CallEntries | 6502isa.cpp:176-255 | JSR, RTS, BRK and RTI in the table |
| InstructionSet.PushPullEntries | 6502isa.cpp:871-1242 | The pushes and pulls |
| InstructionSet.TransferEntries | 6502isa.cpp:939-1236 | The transfers and NOP |
| InstructionSet.CountEntries | 6502isa.cpp:925-1226 | Counting in the registers |
| InstructionSet.ShiftEntries | 6502isa.cpp:1089-1183 | Shifts and rotates of A |
| InstructionSet.FlagEntries | 6502isa.cpp:880-996 | The flag opcodes |
| InstructionSet.JumpEntries | 6502isa.cpp:190-1302 | The jumps, BRA, DBG and STP |
| InstructionSet.LoadXEntries | 6502isa.cpp:457-1512 | LDX in its five modes |
| InstructionSet.LoadYEntries | 6502isa.cpp:282-1408 | LDY in its five modes, and LDA 0xAD |
| InstructionSet.StoreEntries | 6502isa.cpp:545-1492 | STX and STY |
| InstructionSet.StoreZeroEntries | 6502isa.cpp:533-1498 | STZ |
| InstructionSet.CompareEntries | 6502isa.cpp:299-1352 | CPX and CPY |
| InstructionSet.BitEntries | 6502isa.cpp:487-1284 | BIT, TSB and TRB |
| InstructionSet.Column2Entries | 6502isa.cpp:432-486 | The accumulator opcodes ending in 2, zero page as coded but for 0xD2 and 0xF2 |
| InstructionSet.UnlistedOpcodes | 6502cpu.cpp:75-81 | Exactly 44 opcodes are not in the table: those ending in 3, those ending in B but 0xDB, and thirteen others |
| Bytes.SubByte | byte_utils.h:50-75 | The byte difference with its borrow |
| Bytes.SubAddress | address.h:93-99 | The 16-bit difference with its borrow; adding back gives the minuend |

## Left out

- Cpu.CPU6502.Execute: takes a number of steps as `fuel`, because the program's loop need not end; RunLoop.ExecuteMeaning states the meaning for every `fuel`.
- DebuggerObject.Debugger.Run: takes a number of rounds as `fuel` for the same reason.
- DebuggerObject.Debugger.GoToDebugger: returns when the input is used up, where the program prompts for ever without stepping if the last line ended with a newline, and executes an unterminated last line again and again (`std::getline` at the end of the stream leaves `command` as it was); returns on the exit command, where the program ends the process, and on a `get` past memory, where it reads on.
- DebuggerLoop.Transparent: input whose last line is not ended by a newline is not modelled, and nothing is claimed about a session after a `get` past memory.
- DebuggerLoop.OverreadsExactly: a `get` range is in unbounded integers; in the program's 64-bit `size_t` a sum that wraps also passes 0x10000 first, so the condition is the same.
- Simulator.RunImage: takes a number of rounds as `fuel`, and `printed` is the device's bytes only, without the STP, breakpoint, prompt and unknown-opcode texts the program also writes to standard output.
- RunLoop.ExecuteMeaning: nothing is claimed about a run after the undefined read of the indirect JMP through 0xFFFF; the model ends it there.
- Memory images of any size other than 64 KiB; hello.s assembles to 0xFFFE bytes and is run in a 64 KiB memory.
- Command-line handling, file import, parsing of commands and hexadecimal numbers, verbose output, what the debugger's dump and help commands print, and the layout in which `get` prints the cells it shows.
- Decimal mode, interrupt lines and cycle counts, which the program does not implement.
- The operand address of implied instructions, uninitialised in the program and used by none of them, is 0.
