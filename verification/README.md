# A verified model of the 8085 simulator

The simulator runs an Intel 8085 next to timed peripherals and, optionally, a
netlist that wires their pins together. This project models the four connected
parts in which its behaviour is decided and proves what they promise.

- **The tri-state logic net** (`Net*.dfy`). `NetModel` says what a pass, the
  bounded settle loop and a step compute; `NetEngine` is the class that does it in
  place, from parsing to delivery, and refines it. `NetFixpoint` orders levels by
  information and treats every net, cyclic or not; `NetHistory` says exactly when
  persistent gate outputs matter, `NetAcyclic` that they never do without feedback
  and how tight the passes are; `NetMeaning` ties gates and wires to Boolean
  functions and the theory to the program's 16 passes; `NetWarnings` counts and places warnings;
  `NetNames` shows that the order of netlist lines is irrelevant.
- **The processor** (`Cpu*.dfy`). `CpuModel` covers all 256 opcodes, grouped by bit
  pattern, with flags by their meaning; `CpuEngine` is the class with registers and
  memory updated in place. On top: write protection over whole runs (`CpuRuns`),
  the interrupt machine (`CpuInterrupts`), the stack (`CpuStack`), arithmetic of any
  length (`CpuMultiByte`) and the loops that run it (`CpuPrograms`), agreement with
  the disassembler (`CpuLayout`), masks over runs (`CpuMasking`), and laws of every
  instruction by opcode byte (`CpuLaws`, `CpuPairLaws`, `CpuTiming`).
- **The 8254 timer** (`Pit*.dfy`): closed forms for any number of ticks,
  conservation of the clock, the coherent latched read, and what programming the
  ports leads to (`PitPorts`); `PitEngine` refines them.
- **The MC6850 and the whole board** (`Acia*.dfy`, `Board*.dfy`). `BoardModel` puts
  processor, MC6850 and net together as the runtime does; `BoardEngine` is the
  runtime object over the three engine classes; `BoardRuns` proves the wired and the
  direct interrupt path bisimilar and the received bytes exact, end to end.

Each engine method is proved against a function of values, and the main results
are about those functions over every input, run or reachable state. Bytes and words
are ranges of integers with every wrap and mask written out.

`dafny verify dfyconfig.toml` checks the project.

## Findings

Where code and documentation, or code and hardware, disagree, the model follows the
code.

- docs/superpowers/plans/2026-07-30-tristate-logic-net-wiring.md re-initialises gate
  outputs in every step; the code does so only in `bind`. A settled step can tell the
  difference if and only if the current equations have more than one solution
  (`HistoryMattersExactly`): never in an acyclic net (`HistoryIndependence`), but in
  a latch (`LatchRemembers`).
- An acyclic net of depth 15 with correct levels still draws the oscillation warning
  (`FalseAlarmOnLongChain`), and after the first step a net may warn of a conflict
  that the settled state does not have (`TransientConflictAlarm`); which nodes can
  be reported at all, and which falsely, is settled by `ConflictPossibleExactly` and
  `FalseAlarmExactly`.
- docs/superpowers/specs/2026-07-30-tristate-logic-net-wiring-design.md says warnings
  name the node; the code's messages do not, so warnings carry only their kind here.
- EI executed while interrupts are already on leaves an enable pending across an
  acceptance; the handler it interrupts is open again after one instruction
  (`HandlerStartsClosed`), exactly then (`NestingExactly`), and `RedundantEiNests` is
  a run in which it is interrupted.
- The MC6850's script position also moves when a live channel byte is read, so live
  input makes scripted bytes disappear (`MixedReceipts`, `LiveByteSkipsScript`); a
  live byte waiting at a master reset is lost (`MasterResetLosesLiveByte`), and
  between simulator resets nothing else loses one (`LiveDelivery`).
- An odd square-wave count N has period N + 1 (`SquareWavePeriod`,
  `OddSquareWaveIsLonger`).
- Wired RST 7.5 is not edge-triggered: each step with the wire high sets the latch.
- ADI and CPI leave V alone, CNZ charges 9 T-states taken or not, LXI B, D and H
  charge 4: modelled as the code has them.

## Model

| member | source | states |
|---|---|---|
| NetFixpoint.GateMonotone | src/logic_net.cpp:19-88 | every gate, of any fan-in, is monotone in the information order (X below 0 and 1) |
| NetFixpoint.ResolveMonotone | src/logic_net.cpp:267-337 | node resolution is monotone in the gate outputs, and a conflict once seen stays |
| NetFixpoint.AdvanceMonotone | src/logic_net.cpp:266-346 | a whole pass is monotone |
| NetFixpoint.Ascending | src/logic_net.cpp:205-212 | from the all-X gates that bind leaves, the passes form an ascending chain, in every net, cyclic or not |
| NetFixpoint.StableWithinGates | src/logic_net.cpp:262-351 | that chain is stationary after as many passes as there are gates |
| NetFixpoint.LeastSolves | src/logic_net.cpp:266-346 | its limit solves all node and gate equations at once |
| NetFixpoint.LeastBelow | src/logic_net.cpp:266-346 | every solution of the equations refines it |
| NetFixpoint.SettleIterates | src/logic_net.cpp:262-357 | the loop with its early exit leaves the levels and gate outputs of plain iteration; left by its break, they solve all equations; called oscillating, all passes were used up |
| NetFixpoint.FirstStepFindsLeastSolution | src/logic_net.cpp:229-363 | first step after bind, any net: at most gates + 2 passes, so no oscillation warning with up to 14 gates; whenever the step settles, whatever the gate count, its state is the least solution; even when it is cut off, every 0 or 1 found is one of the least solution |
| NetFixpoint.ClearedStepFindsLeast | src/logic_net.cpp:205-212 | the same for any step whose gate outputs are X, whatever its levels: what clearing the gates before a step would compute |
| NetFixpoint.SettledStepRefinesLeast | src/logic_net.cpp:263-351 | any net, any history: a step that leaves the loop by its break ends in a solution of all equations that refines the least one |
| NetFixpoint.NoStepContradictsLeast | src/logic_net.cpp:263-351 | any net, any history, oscillating or not: with fewer gates than passes no step contradicts a 0 or 1 of the least solution |
| NetFixpoint.SettlesOnce | src/logic_net.cpp:349-351 | a step that starts in a solution of its pin drives takes one pass and changes nothing |
| NetAcyclic.HistoryWashesOut | src/logic_net.cpp:266-346 | k passes wash every trace of leftover gate outputs out of the first k layers of an acyclic net |
| NetAcyclic.UniqueSolution | src/logic_net.cpp:266-346 | an acyclic net has exactly one solution of its equations |
| NetAcyclic.HistoryIndependence | src/logic_net.cpp:205-371 | acyclic net of depth d: whatever gate outputs and levels earlier steps left, the step takes at most d + 2 passes; within the limit it settles in the one solution without an oscillation warning; one pass fewer still gives the right levels; clearing the gates to X first changes no level |
| NetAcyclic.AcyclicIsLayered | src/logic_net.cpp:266-346 | a net in which no gate reaches itself has layers, at most as many as gates |
| NetAcyclic.LayeredIsAcyclic | src/logic_net.cpp:266-346 | and only such a net has layers |
| NetAcyclic.AcyclicForgetsHistory | src/logic_net.cpp:205-371 | history independence stated of the wiring alone: no gate reaches itself |
| NetAcyclic.FalseAlarmOnLongChain | src/logic_net.cpp:353-363 | the limit is tight: a chain of n inverters draws an oscillation warning if and only if the limit is below n + 2, although from n + 1 on its levels are right (n = 15 for the 16 passes of the program) |
| NetAcyclic.ChainParsed | src/logic_net.cpp:90-189 | that chain is what n + 1 netlist lines parse to |
| NetAcyclic.ChainDriven | src/logic_net.cpp:249-257 | and a high pin on its wire drives it as assumed |
| NetHistory.HistoryMattersExactly | src/logic_net.cpp:205-212 | any net: leftover gate outputs can influence a settled step if and only if the equations of the current pin drives have a solution besides the least one |
| NetHistory.KnownOutputsForgetHistory | src/logic_net.cpp:262-351 | readable condition: if the gates, started at X, all come out known, then under these pin drives every step from any history ends in that very state, settles within gates + 2 passes, and there is no other solution |
| NetHistory.LatchRemembers | src/logic_net.cpp:205-212 | a run from bind in which history shows: a NOR latch, one input pulsed and released, holds the pulsed value, while clearing the gates before the last step would leave it X |
| NetWarnings.FloatingIsStructural | src/logic_net.cpp:316-331 | a pass reports a node as floating exactly when it has no gate source, no active pin driver and no pull, whatever the gates put out |
| NetWarnings.StepWarningsCounted | src/logic_net.cpp:300-363 | of each kind, a step raises exactly as many warnings as it newly records |
| NetWarnings.WarningsBounded | src/logic_net.cpp:300-363 | over any run of any net there are at most 2 * nodes + 1 warnings |
| NetWarnings.FirstStepWarnsExactly | src/logic_net.cpp:300-331 | first step after bind, any number of gates: no conflict is recorded that the final state lacks; if the step settles, exactly the nodes in conflict are; floating is recorded exactly of the nodes nothing drives, settled or not |
| NetWarnings.RisingStepWarnsExactly | src/logic_net.cpp:300-331 | any step whose first pass only adds information to the leftover gate outputs is as exact: it adds to the record exactly the final conflicts, once settled |
| NetWarnings.ConflictPossibleExactly | src/logic_net.cpp:302-308 | under given pin drives some leftover state makes a step record a conflict on a node if and only if its pins drive both ways, or a pin and a gate drive it, or two gates do |
| NetWarnings.FalseAlarmExactly | src/logic_net.cpp:302-308 | acyclic net within the limit: some leftover state makes a step record a conflict its final state lacks, if and only if two drivers that can disagree are attached to the node and do not disagree in the one solution |
| NetWarnings.FalseAlarmExactlyWhenKnown | src/logic_net.cpp:302-308 | the same for any net, cyclic too, whose gates all come out known from X |
| NetWarnings.TransientConflictAlarm | src/logic_net.cpp:302-308 | two steps from bind on a hazard net, input low and then high: the second settles without conflict but records one on the way |
| NetMeaning.GateMeansBoolean | src/logic_net.cpp:19-88 | a gate of any kind and fan-in puts out a known value if and only if its Boolean function has that value however the unknown input levels turn out |
| NetMeaning.MalformedIsUnknown | src/logic_net.cpp:30-38 | an inverter or buffer without exactly one input puts out X |
| NetMeaning.DeMorgan | src/logic_net.cpp:41-84 | NAND is OR of inverted inputs, NOR is AND, and the other way round, unknown levels included |
| NetMeaning.NodeMeansWire | src/logic_net.cpp:267-331 | a node is at a known level if and only if its wire is at that level however the unknown gate outputs turn out; the wire fights, follows its drivers, or rests at its pull |
| NetMeaning.PullsMean | src/logic_net.cpp:123-137 | an undriven node is high after `pull up` and low after `pull down`, the last line counting, and X without either |
| NetMeaning.FourteenGatesSettle | src/logic_net.cpp:259-363 | with the 16 passes of the program: up to 14 gates the first step settles silently in the least solution, cyclic or not |
| NetMeaning.FourteenLayersSettle | src/logic_net.cpp:259-363 | up to 14 layers an acyclic step settles silently in the one solution from any leftover state; with 15 its levels are right |
| NetMeaning.ChainOfFifteenWarns | src/logic_net.cpp:353-363 | a chain of n inverters draws the oscillation warning if and only if n is at least 15 |
| NetNames.PermutedLinesAreSameNetlist | src/logic_net.cpp:95-185 | reordering lines keeps the netlist, if no node is pulled both ways |
| NetNames.ParsedTwins | src/logic_net.cpp:90-189 | two nets parsed from reordered lines correspond node for node by name and gate for gate |
| NetNames.SettleAlike | src/logic_net.cpp:262-357 | corresponding states settle alike, pass by pass, and agree on oscillating |
| NetNames.LineOrderIndependence | src/logic_net.cpp:249-371 | reordering the lines of a netlist changes no level and no warning record of any named node after any number of steps, for cyclic and oscillating nets too |
| NetNames.DeliveriesAlike | src/logic_net.cpp:365-370 | pin by pin the two nets deliver the same levels |
| NetEngine.Net.NodeIndex | src/logic_net.cpp:7-17 | find or create: the index of the node of that name, names staying distinct and old nodes in place |
| NetEngine.Net.Parse | src/logic_net.cpp:90-189 | on top of lines parsed before: the node, endpoint and gate lists say exactly what all lines say: distinct names, exactly the mentioned ones, the last pull of each, wires and gates in order, all indices in range |
| NetEngine.Net.Bind | src/logic_net.cpp:191-227 | fails exactly when some pin is unknown; else every endpoint has its handle, every vector its size and fresh gates are X |
| NetEngine.Net.LinkGates | src/logic_net.cpp:206-220 | a node's gate list holds exactly the gates that output there |
| NetEngine.Net.EvalGate | src/logic_net.cpp:19-88 | the branching loop computes the three-valued meaning of the gate |
| NetEngine.Net.ScanPins | src/logic_net.cpp:272-284 | exactly the pin drivers of the node |
| NetEngine.Net.ScanGates | src/logic_net.cpp:286-298 | exactly the gate drivers of the node, X apart |
| NetEngine.Net.ResolveNode | src/logic_net.cpp:267-337 | one node's level, warnings and warning records; no other entry changes |
| NetEngine.Net.SettleLoop | src/logic_net.cpp:259-357 | the loop in place computes the settle function: state, oscillation and warnings in order |
| NetEngine.Net.Deliver | src/logic_net.cpp:365-370 | every endpoint that is an input now gets its node's level, in order |
| NetEngine.Net.Step | src/logic_net.cpp:229-371 | one whole step in place, with live directions: state, warnings and deliveries; with at most 14 layers the one solution, silently; nothing before bind |
| NetEngine.BringUp | src/logic_net.cpp:90-371 | construct, parse, bind and the first step of a net object: fails exactly on an unknown pin; otherwise the levels are the least solution unless a warning says the step was cut off; with at most 14 gates none does |
| CpuEngine.Parity | src/i8085_exec.c:24-34 | the counting loop decides whether the low `size` bits hold an even number of ones |
| CpuArith.SumOverflowBySigns | src/i8085_exec.c:75-91 | the sign-bit formula for V holds exactly when the signed sum leaves the byte range |
| CpuArith.DifferenceOverflowBySigns | src/i8085_exec.c:93-109 | the same for differences |
| CpuArith.PswRoundTrip | src/i8085_exec.c:1559-1632 | unpacking a packed status word gives back all seven flags |
| CpuEngine.State8085.AddBytes | src/i8085_exec.c:75-91 | sum, carry, half carry, overflow, zero, sign and parity of an addition, each by its meaning |
| CpuEngine.State8085.SubtractBytes | src/i8085_exec.c:93-109 | the same for a subtraction with borrow |
| CpuEngine.State8085.constructor | src/i8085_state.c:10-24 | a fresh processor is a reset one with zero memory and ports |
| CpuEngine.State8085.Reset | src/i8085_state.c:35-46 | reset clears everything but memory and ports |
| CpuEngine.State8085.TriggerInterrupt | src/i8085_state.c:63-90 | which line each code sets or clears (RST 7.5 is only ever set), and the enable flag returned |
| CpuEngine.State8085.SetSidLine | src/i8085_state.c:55-57 | the serial input level |
| CpuEngine.MemWriteHook | src/io_runtime.cpp:601-611 | the value threaded through all memory plugins: the old byte where any of them protects the address, the new one elsewhere |
| CpuEngine.State8085.MemWr | src/i8085_exec.c:19-22 | one masked write through the hook; no other byte changes |
| CpuEngine.State8085.Call | src/i8085_exec.c:111-117 | pushes the address after the operands and goes to the target |
| CpuEngine.State8085.ReturnToCaller | src/i8085_exec.c:119-122 | pops the program counter |
| CpuEngine.State8085.Rst | src/i8085_exec.c:124-130 | pushes the program counter and goes to the vector |
| CpuEngine.State8085.CheckInterrupts | src/i8085_exec.c:132-175 | accepts what the model chooses, or nothing |
| CpuEngine.State8085.DoDsub | src/i8085_exec.c:238-258 | HL - BC with all its flags |
| CpuEngine.State8085.DoRim | src/i8085_exec.c:403-418 | assembled bit by bit: bit 7 is SID, 6 to 4 the pending RST 7.5, 6.5 and 5.5, 3 the enable flag, 2 to 0 the masks |
| CpuInterrupts.RimBits | src/i8085_exec.c:403-418 | the meaning of each bit of the byte RIM assembles |
| CpuInterrupts.RimAfterSim | src/i8085_exec.c:531-556 | RIM after SIM reads back the masks SIM wrote, or the old ones with bit 3 clear, and RST 7.5 unless bit 4 reset it |
| CpuEngine.State8085.DoSim | src/i8085_exec.c:531-556 | masks, RST 7.5 reset and SOD from the accumulator |
| CpuEngine.State8085.DoDaa | src/i8085_exec.c:453-476 | decimal adjustment as the model states it |
| CpuEngine.State8085.DoAlu | src/i8085_exec.c:933-1215 | the eight accumulator operations on any operand |
| CpuEngine.State8085.DoConditional | src/i8085_exec.c:1216-1250 | conditional returns, jumps and calls under all eight conditions |
| CpuEngine.State8085.Execute | src/i8085_exec.c:199-1701 | all 256 opcodes, in place, exactly as the model says: every register, flag, memory byte, port and the T-states |
| CpuEngine.State8085.Emulate8085Op | src/i8085_exec.c:181-1718 | one call of the step function: interrupts, halt, instruction, delayed enable, T-states modulo 2^64, and the lowest stack pointer of executed instructions |
| CpuEngine.ExecutionStats.Record | src/i8085_exec.c:1703-1708 | the lowest stack pointer and the T-state total after an instruction |
| CpuRuns.ChainIsVeto | plugins/memory.cpp:65-73 | the plugin chain answers the old byte exactly where some region protects the address |
| CpuRuns.LoadOrderIrrelevant | src/io_runtime.cpp:606-610 | the order in which memory plugins are loaded does not change any write |
| CpuRuns.StoreExact | src/i8085_exec.c:19-22 | an unprotected write stores exactly the processor's value, a protected one nothing, and no other byte changes |
| CpuRuns.RegionMeans | plugins/memory.cpp:65-73 | a ROM keeps its bytes; an EEPROM keeps them while writing is off and takes every byte while it is on; outside its addresses, end excluded, a plugin does nothing |
| CpuRuns.StepGuarded | src/i8085_exec.c:181-1718 | one step, any opcode, any interrupt: protected bytes keep their value |
| CpuRuns.ProtectedBytesNeverChange | src/i8085_exec.c:181-1718 | the same over every run, under any program, signals, port input and list of regions |
| CpuRuns.StatesBounded | src/i8085_exec.c:1708 | a step charges 4 to 18 T-states, or none and no change when halted without an interrupt |
| CpuInterrupts.ExecFrame | src/i8085_exec.c:199-1701 | only EI, DI, HLT and SIM touch the interrupt state, and each how; SIM resets RST 7.5 under accumulator bit 4 and writes the masks from bits 2 to 0 under bit 3 |
| CpuInterrupts.StepEnables | src/i8085_exec.c:1703-1717 | enable, delay and halt after a step, as a function of what ran |
| CpuInterrupts.ReachableIsSettled | src/i8085_exec.c:1664-1667 | at every boundary reachable from reset the enable delay is 0 or 1, and 0 when halted |
| CpuInterrupts.ChoosesHighestPriority | src/i8085_exec.c:132-175 | an interrupt is taken exactly when one is eligible, and it is the highest-priority one |
| CpuMasking.HandlersExactly | src/i8085_exec.c:132-188 | in the processor's fields alone: each of the five handlers is entered if and only if its line is pending, its own mask clear, interrupts are on (TRAP apart) and no higher line qualifies |
| CpuMasking.MasksStand | src/i8085_exec.c:547-551 | after a SIM with mask set enabled the masks stand until the next SIM, whatever runs and is signalled |
| CpuMasking.MaskedNeverEnters | src/i8085_exec.c:132-188 | so no handler whose mask bit was set is entered at any boundary before the next SIM |
| CpuMasking.UnmaskedEnters | src/i8085_exec.c:144-149 | and RST 7.5 with its bit clear is, when pending and enabled |
| CpuMasking.ResetIsQuiet | src/i8085_state.c:35-46 | from reset no maskable handler is entered before the second boundary after the first EI |
| CpuInterrupts.AcceptanceIsExact | src/i8085_exec.c:132-188 | acceptance clears exactly the accepted line, leaves the rest pending, disables, ends a halt, pushes pc and goes to the vector |
| CpuInterrupts.EiShadow | src/i8085_exec.c:1664-1667 | after EI with interrupts off nothing but TRAP can be accepted before the next instruction, whatever is signalled |
| CpuInterrupts.HandlerStartsClosed | src/i8085_exec.c:1710-1715 | interrupts are on after the first handler instruction if and only if an enable was pending at acceptance and that instruction is neither EI nor DI; so an EI repeated while interrupts are on lets the handler be interrupted |
| CpuInterrupts.PendingWhileOn | src/i8085_exec.c:1664-1667 | an enable is pending while interrupts are on exactly when the last step ran EI with interrupts on |
| CpuInterrupts.NestingExactly | src/i8085_exec.c:1664-1667 | every run from reset, every accepted maskable interrupt: interrupts are on after the first handler instruction if and only if the step before the acceptance ran EI with interrupts on and that instruction is neither EI nor DI |
| CpuInterrupts.RedundantEiNests | src/i8085_exec.c:1664-1667 | a run from reset, EI; NOP; EI, then RST 7.5, then RST 6.5: the second interrupt is accepted one instruction into the handler of the first |
| CpuInterrupts.ClosedUntilAfterEi | src/i8085_exec.c:141-142 | with interrupts off and no enable pending, a run accepts only TRAP up to and including the step after its first EI |
| CpuInterrupts.HandlerDoesNotNest | src/i8085_exec.c:1664-1667 | entered with no enable pending and without TRAP, a handler that ends EI; RET is not interrupted before its RET has run |
| CpuMultiByte.AddChainExact | src/i8085_exec.c:84-91 | an ADD, ADC, ... chain over n bytes yields the exact sum modulo 256^n with CY the true carry |
| CpuMultiByte.AddChainFlags | src/i8085_exec.c:75-91 | the last carry, V and S of the chain: V exactly on n-byte two's complement overflow, S the sign of the n-byte result |
| CpuMultiByte.SubChainExact | src/i8085_exec.c:102-109 | the same for SUB, SBB, ...: difference and borrow |
| CpuMultiByte.SubChainFlags | src/i8085_exec.c:93-109 | borrow, V and S of the chain, likewise |
| CpuMultiByte.DoubleSubIsTwoByteChain | src/i8085_exec.c:238-258 | DSUB agrees with SUB C, SBB B on HL, CY, S and V |
| CpuMultiByte.DecimalAddExact | src/i8085_exec.c:453-476 | ADC then DAA on two packed-BCD bytes is one decimal digit-pair addition with carry |
| CpuMultiByte.DecimalChainExact | src/i8085_exec.c:453-476 | folded over any length: valid BCD whose value plus carry times 100^n is the sum |
| CpuPrograms.EffectExecuted | src/i8085_exec.c:199-1701 | what LDAX D, ADC M or SBB M, DAA or NOP, STAX D, INX and DCR B do when executed |
| CpuPrograms.LoopComputes | src/i8085_exec.c:181-1718 | a ten-byte loop in memory, run by the step function: after 8 k steps the first k bytes at DE are combined with those at HL, the carry is that of the fold, and no other byte has changed; after 8 n steps the loop is left |
| CpuPrograms.LoopArithmetic | src/i8085_exec.c:84-109 | run to its end, that loop adds, subtracts or decimally adds two n-byte strings in memory (n from 1 to 256) exactly, with the true carry or borrow in CY |
| CpuLayout.DisassemblerAgrees | src/i8085_disasm.c:37-879 | for every opcode: when control stays, pc advances by the disassembler's length and sp moves only under the opcodes meant to move it; every call and restart pushes pc plus that length; every jump goes where its operands say |
| CpuLaws.ReturnsConditionally | src/i8085_exec.c:1216-1222 | the eight conditional returns by opcode byte: taken exactly when the named flag has the named value |
| CpuLaws.JumpsConditionally | src/i8085_exec.c:1230-1238 | the eight conditional jumps |
| CpuLaws.CallsConditionally | src/i8085_exec.c:1243-1250 | the eight conditional calls, with their states |
| CpuLaws.CompareThenBranch | src/i8085_exec.c:1182-1215 | two executed steps, CMP r and a conditional jump: JC branches exactly when A is less, JZ when equal, JM and JPE by sign and parity of the difference, and the complementary four |
| CpuLaws.CompareImmediateThenBranch | src/i8085_exec.c:1686-1696 | the same for CPI |
| CpuLaws.MoveImmediateNames | src/i8085_exec.c:226-230 | which register, or memory byte, each MVI loads |
| CpuLaws.MoveNames | src/i8085_exec.c:649-932 | which operand each MOV reads, and that it moves it as MVI would load it |
| CpuLaws.IncrementNames | src/i8085_exec.c:218-225 | INR and DCR on every operand, carry kept |
| CpuLaws.RegisterIsImmediate | src/i8085_exec.c:933-1215 | an accumulator operation on a register is the immediate one on the byte it holds, V of ADI and CPI apart |
| CpuLaws.ImmediateArithmetic | src/i8085_exec.c:1258-1321 | ADI, ACI, SUI and SBI are exact sums and differences |
| CpuLaws.ImmediateFlags | src/i8085_exec.c:1258-1321 | and their flags: zero, sign, parity, half carry, signed overflow |
| CpuLaws.ImmediateLogic | src/i8085_exec.c:1485-1491 | ANI, XRI and ORI work bit by bit; their flags |
| CpuLaws.DaaCorrects | src/i8085_exec.c:453-476 | DAA on any byte: which digits are corrected, and all flags |
| CpuLaws.AccumulatorLaws | src/i8085_exec.c:231-237 | the four rotates as arithmetic on A and CY; CMA, STC, CMC |
| CpuLaws.StatusByte | src/i8085_exec.c:1607-1632 | the layout of the status byte |
| CpuLaws.StatusByteRead | src/i8085_exec.c:1559-1583 | what POP PSW makes of any byte |
| CpuPairLaws.LxiNames | src/i8085_exec.c:202-206 | which pair each LXI loads, low byte first |
| CpuPairLaws.CountsPair | src/i8085_exec.c:211-217 | INX on every pair, around the end, with X5 |
| CpuPairLaws.DcxUndoesInx | src/i8085_exec.c:275-281 | DCX undoes INX |
| CpuPairLaws.DadAdds | src/i8085_exec.c:259-268 | DAD: the exact 17-bit sum, no other flag |
| CpuPairLaws.StoresRegisters | src/i8085_exec.c:424-431 | STA, STAX, SHLD and SHLX: which bytes, low one first |
| CpuPairLaws.LoadsRegisters | src/i8085_exec.c:495-505 | LDA, LDAX, LHLD and LHLX |
| CpuPairLaws.LhldAfterShld | src/i8085_exec.c:424-505 | LHLD brings back what SHLD stored |
| CpuPairLaws.PairMoves | src/i8085_exec.c:1516-1525 | XCHG, SPHL, PCHL, LDHI and LDSI |
| CpuPairLaws.PushNames | src/i8085_exec.c:1251-1257 | which pair each PUSH stores |
| CpuPairLaws.PopNames | src/i8085_exec.c:1223-1229 | which pair each POP loads |
| CpuPairLaws.WordShifts | src/i8085_exec.c:303-311 | ARHL halves HL as a signed number, RDEL doubles DE with the carry |
| CpuPairLaws.PortsCarry | src/i8085_exec.c:1348-1408 | OUT and IN: which byte on which port |
| CpuTiming.StatesCharged | src/i8085_exec.c:193-1708 | the T-states of all 256 opcodes, conditional ones taken or not, as one table |
| CpuStack.PushRefines | src/i8085_exec.c:111-130 | a push on a stack laid out downward from its base is an abstract push; other bytes keep their value |
| CpuStack.PopRefines | src/i8085_exec.c:119-122 | a pop yields the abstract top |
| CpuStack.PushPopExact | src/i8085_exec.c:111-122 | at any stack pointer a pop right after a push in unprotected memory returns the word, sp 1 apart, where its high byte is read from past the end of memory |
| CpuStack.InstructionRefines | src/i8085_exec.c:199-1701 | every instruction is a push, a pop, an exchange of the top (XTHL) or nothing to the abstract stack; the old top goes to the right register pair or pc; bytes outside the pushed or exchanged word keep their value |
| CpuStack.RunRefines | src/i8085_exec.c:181-1718 | whole runs, interrupts included, refine the abstract LIFO while sp is not set outright and the stack stays in writable memory of its own |
| CpuStack.PushedIsPopped | src/i8085_exec.c:111-130 | balanced code in between, whatever it is: what was pushed is what is popped, so a callee returns to its caller |
| CpuStack.TripDelivers | src/i8085_exec.c:111-130 | a step that pushes, a run that leaves the stack balanced, a step that pops: the pop delivers what was pushed and the stack is restored |
| CpuStack.CallReturns | src/i8085_exec.c:111-130 | CALL, taken Ccc, RST or RSTV executed, a balanced callee, a return executed: pc is the address after the call |
| CpuStack.StatusWordRestored | src/i8085_exec.c:1559-1632 | a run: PUSH PSW executed, balanced code with interrupts, POP PSW executed; A and all seven flags are those at the push |
| PitModel.CountDownForm | plugins/pit8254.cpp:116-133 | count-down modes, n ticks after loading N: the 16-bit count is (N - n) mod 65536, and in mode 0 OUT is high exactly from n = N on |
| PitModel.RateGeneratorForm | plugins/pit8254.cpp:99-107 | mode 2: count is N - (n mod N) and OUT is low exactly when the count is 1 (N = 1 never goes low) |
| PitModel.SquareWaveForm | plugins/pit8254.cpp:108-115 | mode 3: count is N - 2 (n mod ceil(N/2)), OUT toggled floor(n / ceil(N/2)) times |
| PitModel.SquareWavePeriod | plugins/pit8254.cpp:108-115 | mode 3 repeats after N ticks for even N and N + 1 for odd N |
| PitModel.OddSquareWaveIsLonger | plugins/pit8254.cpp:108-115 | for odd N it does not repeat after N ticks |
| PitChip.ClockConserved | plugins/pit8254.cpp:212-229 | over any forward run of the clock whose steps stay within the tick cap times the divider, the chip is where one jump to the final time puts it |
| PitChip.TicksConserved | plugins/pit8254.cpp:212-229 | ticks times divisor plus leftover equals the old leftover plus elapsed T-states |
| PitChip.StepSplitIrrelevant | plugins/pit8254.cpp:212-229 | how the elapsed time is cut into steps does not matter |
| PitChip.LatchedReadIsCoherent | plugins/pit8254.cpp:135-210 | after a latch command two reads return low and high byte of the count at latch time, whatever ticks, latch commands, count writes and other accesses come between, and free the latch |
| PitPorts.ControlWord | plugins/pit8254.cpp:135-161 | a control word addresses its counter, sets mode and access, and leaves it waiting; the others are untouched |
| PitPorts.TwoBytesLoad | plugins/pit8254.cpp:163-183 | control word, low byte, high byte, with any clocking, reads, latches and other traffic in between: the counter runs from 256 * high + low in the mode named |
| PitPorts.OneByteLoads | plugins/pit8254.cpp:163-170 | the one-byte accesses: the byte, or 256 times it |
| PitPorts.ProgrammedCounts | plugins/pit8254.cpp:95-133 | so programmed and ticked n times: count and OUT in every mode |
| PitPorts.GatesFreeze | plugins/pit8254.cpp:225-228 | over any run of the clock a low gate freezes its counter and a high one lets it see every tick |
| PitPorts.LiveReads | plugins/pit8254.cpp:187-210 | reads of an unlatched counter: low byte, high byte, or one then the other, of the count as it is at each read |
| PitEngine.Counter.Tick | plugins/pit8254.cpp:95-125 | one tick in place |
| PitEngine.Counter.WriteControl | plugins/pit8254.cpp:135-161 | latch or new mode in place |
| PitEngine.Counter.WriteCounter | plugins/pit8254.cpp:163-183 | count bytes in place, by access mode |
| PitEngine.Counter.ReadByte | plugins/pit8254.cpp:187-199 | the byte a read returns |
| PitEngine.Counter.AdvanceRead | plugins/pit8254.cpp:201-210 | the sequencing after a read |
| PitEngine.Pit8254.OnStep | plugins/pit8254.cpp:212-229 | elapsed time to ticks, remainder kept, three gated counters ticked in place |
| PitEngine.Pit8254.WritePort | plugins/pit8254.cpp:247-255 | which counter a port write reaches; the others unchanged |
| PitEngine.Pit8254.ReadPort | plugins/pit8254.cpp:231-245 | a port read: byte and sequencing |
| AciaModel.ReceivesInOrderExactlyOnce | plugins/mc6850.cpp:166-245 | scripted input: under any interleaving of steps, reads, control writes and master resets, the bytes handed over are the first rxPos of the script in order, a full register holds the next, hand-overs are at least bytegap steps apart |
| AciaModel.MixedReceipts | plugins/mc6850.cpp:200-210 | script and live channels mixed: the script position counts all bytes handed over, so the i-th of them, if scripted, is the script byte i; each live byte handed over costs the scripted byte at its place |
| AciaModel.LiveByteSkipsScript | plugins/mc6850.cpp:207 | a run in which that happens: one live byte is read and the last scripted byte is never received |
| AciaModel.LiveInOrder | plugins/mc6850.cpp:157-180 | live bytes enter the register first in, first out, and none is lost on the way |
| AciaModel.LiveDelivery | plugins/mc6850.cpp:157-245 | every run from a reset chip: live bytes that arrived have been handed over, wait in the register or the queue, or were dropped; and they reach the processor exactly as they came if and only if no master reset found one in the register |
| AciaModel.SendsWhatIsWritten | plugins/mc6850.cpp:212-245 | bookkeeping of what goes out: the sent bytes are those written to the data port, and the /RTS log alternates and ends in the present level |
| AciaModel.LoadsOnlyWhenReady | plugins/mc6850.cpp:166-180 | a byte enters the register only in a step with /RTS asserted: the next scripted one if its time has come, else the oldest live one; the script moves only when a byte is handed over |
| AciaModel.MasterResetKeepsByte | plugins/mc6850.cpp:229-237 | a master reset silences the chip, and the byte it dropped comes back when /RTS is asserted again |
| AciaModel.StatusAndData | plugins/mc6850.cpp:192-198 | the status port reads 3 while a byte waits and 2 otherwise; the data port reads that byte |
| AciaModel.ControlMeans | plugins/mc6850.cpp:228-244 | which control bytes raise /RTS, turn the receive interrupt on and reset, and that nothing else changes |
| AciaModel.LoadsExactly | plugins/mc6850.cpp:166-180 | a step fills the register exactly when it may, with which byte |
| AciaModel.IrqMeans | plugins/mc6850.cpp:182-189 | /IRQ is asserted exactly while a byte waits and the last control byte asked for receive interrupts; reading the byte releases it |
| AciaModel.StoppedReceivesNothing | plugins/mc6850.cpp:169-180 | with /RTS raised nothing is received |
| AciaModel.MasterResetLosesLiveByte | plugins/mc6850.cpp:229-237 | a run from reset: a live byte arrives, a master reset comes before it is read, /RTS is asserted again, and nothing is left to receive |
| AciaEngine.Mc6850.OnReset | plugins/mc6850.cpp:140-148 | simulator reset in place |
| AciaEngine.Mc6850.OnStep | plugins/mc6850.cpp:150-190 | live bytes queued, a byte received, and the direct poke of RST 7.5 unless a netlist is loaded |
| AciaEngine.Mc6850.PreRead | plugins/mc6850.cpp:192-198 | status or data placed on the port, other ports untouched |
| AciaEngine.Mc6850.PostRead | plugins/mc6850.cpp:200-210 | consumption in place |
| AciaEngine.Mc6850.OnIoWrite | plugins/mc6850.cpp:212-245 | transmission, master reset and control in place, with what is sent and the /RTS log |
| BoardRuns.IrqNetlistCarries | test/wiring_irq.sh:8-11 | the four-line interrupt netlist, its lines in any order, parses to a net that carries the interrupt |
| BoardRuns.PathStep | src/logic_net.cpp:259-351 | in any net, settled or not and with any leftover state, the inverted /IRQ level arrives at RST 7.5 in the same step |
| BoardRuns.DeliveryIsTrigger | src/io_runtime.cpp:378-406 | all deliveries of a step to the processor together are the RST 7.5 trigger, if the wire is high |
| BoardRuns.WiredIsDirect | src/io_runtime.cpp:463-478 | bisimulation: through any net that carries the interrupt, every run has the same processor and the same MC6850 after every cycle as the machine without netlist and with the direct poke |
| BoardRuns.ProgramReadsScript | src/io_runtime.cpp:566-595 | on the whole board, wired or not, under any program, with scripted input: the values IN returns for waiting bytes are the script in order, none lost or doubled, at least bytegap steps apart |
| BoardRuns.ProgramWritesSent | src/io_runtime.cpp:546-564 | bookkeeping on the whole board: the bytes sent are those the program's OUT instructions put on the data port |
| BoardRuns.NoByteNoInterrupt | test/wiring_irq.sh:39-48 | with the script used up the RST 7.5 handler is never entered through the wire |
| BoardRuns.ByteInterrupts | plugins/mc6850.cpp:182-189 | a waiting byte with the receive interrupt on, RST 7.5 unmasked and interrupts enabled is accepted in that very cycle, TRAP apart |
| BoardRuns.PinsReachHandlers | src/io_runtime.cpp:388-396 | a high level at TRAP, RST 7.5, 6.5 or 5.5 enters that handler at the next boundary |
| BoardRuns.SidReachesRim | src/io_runtime.cpp:397-398 | the level at SID is what RIM reads in bit 7 |
| BoardRuns.CodesReachHandlers | src/i8085_state.c:63-90 | the trigger codes enter the handlers they name, 0 to 7 the vector of that number |
| BoardRuns.LowWithdraws | src/io_runtime.cpp:386-398 | a low or unknown level withdraws every line but RST 7.5 |
| BoardRuns.OutputPins | src/io_runtime.cpp:310-344 | SOD drives what SIM set, RTS its level; processor inputs drive nothing |
| BoardRuns.TimerFollowsProcessor | src/i8085_exec.c:1708 | a timer clocked by any run of the processor never meets its per-step cap and loses no tick |
| BoardEngine.Runtime.LoadNetlist | src/io_runtime.cpp:413-444 | on top of what was loaded before: succeeds exactly when every pin is known; then the net says what all lines say and each wire's handle names its pin |
| BoardEngine.Runtime.WriteInput | src/io_runtime.cpp:378-406 | which processor line a level reaches; unknown counts as low; foreign handles do nothing |
| BoardEngine.Runtime.StepNet | src/io_runtime.cpp:474-477 | read pins, settle, deliver, in place |
| BoardEngine.Runtime.OnStep | src/io_runtime.cpp:463-478 | plugins in turn, then the net |
| BoardEngine.Runtime.Cycle | src/main.cpp:1004-1005 | step callback, one instruction and its port access, as the board model says |
| BoardEngine.RunCycles | src/main.cpp:1004-1005 | any number of cycles in place are the run of the board model |
| BoardEngine.RunWired | test/wiring_irq.sh:8-11 | end to end: a fresh runtime that loads the four interrupt lines in any order succeeds, and after any number of cycles its processor and MC6850 are those of the machine without a netlist |

## Left out

- Sockets, TCP, window and stdout channels, terminals, library loading and the disk emulator: host I/O. The bytes a channel delivers in a step are an input of the model, the bytes sent its output.
- Splitting netlist text into tokens, malformed lines and error texts, and splitting pin names: the model starts from well-formed directives and a function from pin names to pins.
- Command line, traces, coverage, ELF and binary loading, memory dumps, the GDB stub, board view and disassembly text: formatting and plumbing.
- The i8255 and other plugins: present as arbitrary signals, port values, memory regions and pins with live direction.
- BoardEngine.Runtime.WriteInput: levels delivered to pins of plugins through `pin_set` have no effect in the model; of the MC6850's pins only CTS and DCD take them, for display alone.
- BoardEngine.Runtime.OnStep: plugins other than the MC6850 appear as arbitrary signals before and after its turn, arbitrary regions, port values and pins; their own state is theirs.
- Netlists in which other drivers share the two interrupt nodes, or other processor inputs are wired: outside the bisimulation, since the machine without a netlist has no counterpart.
- Two plugins claiming the same port: the board gives the MC6850's answer.
- The host's step limit and loop detection.
- A reload of a netlist that fails after an earlier one was in use: the program exits, and the board's steps are specified for a net that is bound.
- Timer: read-back command (ignored by the code), BCD counting (not implemented by the code), and the shape of OUT in modes 1, 4 and 5 beyond what the code does.
- Reads of `memory[sp+1]`, `memory[addr+1]` and operand bytes are not masked by the code. Bytes past the end of memory are modelled as two arbitrary bytes that may differ in every step, so all results hold for any such values.
- Registers, flags, masks and interrupt lines are value records held in fields of the processor class, and the net's vectors are sequences in fields: updates are per field, not per array cell. Memory and ports are arrays.
- ClockConserved: assumes the clock never goes back, moves at most 0x40000 ticks' worth of T-states per step and stays below 2^63; the cap drops ticks beyond it by design, and TimerFollowsProcessor shows the processor never gets there.
- RunRefines: assumes that the stack window is writable and lies within memory, its top included (a word across the wrap is broken by the code's unmasked read at `sp+1`: `PushPopExact`), that LXI SP, INX SP, DCX SP and SPHL are not executed in the run, and that other instructions do not store into the stacked bytes.
- HistoryMattersExactly, ConflictPossibleExactly and FalseAlarmExactly: quantify over all leftover states of the right shape, not only those that runs from bind reach; LatchRemembers and TransientConflictAlarm are runs from bind.
- LoopArithmetic: assumes no interrupt during the loop, a writable target clear of the program, and a target that does not overtake its source. V is not claimed, since DCR B overwrites it in every pass.
