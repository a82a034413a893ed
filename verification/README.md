# Von Neumann emulator: a Dafny model

This project models the core of a browser-based simulator of a small accumulator machine. The machine has:

- a 4096-word memory;
- AR and PC (12-bit), DR, AC and IR (16-bit);
- a 3-bit sequence counter SC;
- an ALU;
- an eight-input common bus;
- a priority encoder that selects the ALU function;
- two decoders, one for T-states and one for opcodes;
- an assembler that turns source lines into a memory image.

Every component is an immutable datatype and every operation a pure function. The layers are these, bottom to top:

- `Js`: the JavaScript number semantics the code relies on.
  - `%` truncates toward zero (`Rem`).
  - `&`, `~` and `<< 1` go through the 32-bit conversion (`ToInt32`, `BitAnd`, `BitNot`, `ShiftLeftOne`).
- `Signal`: the output setter every component inherits. A write notifies the subscriber only when the value changes.
- Component modules:
  - `Alu`: the five-entry function table.
  - `Coders`: the label-reading decoder and the priority encoder, which outputs 0 when no line is set.
  - `Memory`: a sparse array. A hole reads as 0; cells are a `map<int, int>`.
  - `Registers`: load, count and reset at a clock edge.
  - `Bus`: the multiplexer.
- `Control`: the control equations of `signals()`, stated as a truth table (`ControlTable`) over T-state and opcode.
- `Simulator`: the `Diagram` with its wiring callbacks inlined as handler functions. Each handler fires only when an output changes. It also holds `signals`, `tickRegisters`, `tick` and `loadMemArray`.
- `Rtl` and `Refinement`: a register-transfer summary of one clock cycle (`Transfer`).
  - One `tick()` of any wired diagram projects onto `Transfer` (`TickRefinesTransfer`), and so does any run of ticks (`TicksRefineRun`).
- `Isa`: the instruction-level reading of the machine.
  - From a fetch state, a word whose opcode field names an instruction and whose operand fits in 12 bits takes `LastState(op) + 1` cycles and performs `Execute` (`InstructionCycle`).
  - A word whose opcode field names no instruction, such as a stored literal of 32768 or more, runs all eight T-states and only steps PC past it (`IdleCycle`).
- `Assembler`: the four line patterns of the assembler.
  - Each pattern is defined twice: once as a scanner, and once as an independent description of the strings the pattern matches. Lemmas prove the two agree in both directions.
  - Assembling a rendered listing gives back the listing's image (`AssembleDisassembled`).
- `Example`: the program `load 6, add 7, store 8, jump 3, 0, 0, 5, 4`.
  - It assembles to its listing's image.
  - Once loaded into a freshly built diagram, after 14 ticks, and every 3 ticks after that, AC and address 8 both hold 9.

Several behaviours of the code are modelled as written, even where a textbook version of this machine behaves differently:

- The priority encoder outputs 0, the ALU's add, when no line is set (src/diagram.ts:343). A textbook encoder would signal that no function is selected.
- `comp` of 0 gives -1, the 32-bit `~`. A textbook 16-bit AC would complement to 65535.
- The control equations test `IncDec.Add` and `IncDec.And`. Those names are not decoder labels, so both read false (src/diagram.ts:508-509, 549).
- As a result, `and n` never loads DR. A textbook `and n` reads M[n] into DR and then ANDs it into AC.
  - At T3 it loads AR from the memory word at AR, which is the instruction word itself.
  - At T4 it combines AC with whatever DR already held.
  - `Isa.Perform` states exactly that.
- The assembler does not mask the operand to 12 bits, as a textbook assembler would: `load 4096` assembles to the same word as `store 0` (`Assembler.OperandNotMasked`).
- A blank line stores the word 0. Slots after the last line stay holes, and the image has `max(4096, lines)` slots.

## Model

| member | source | states |
|---|---|---|
| Js.Rem | src/diagram.ts:498 | JavaScript `%`: the result has the dividend's sign, is smaller than the divisor in magnitude, and differs from the dividend by a multiple of it |
| Js.ToInt32 | src/diagram.ts:230-232 | the signed 32-bit conversion of the bitwise operators: in range, congruent modulo 2^32, identity on 32-bit values |
| Js.BitAnd | src/diagram.ts:230 | `a & b` is a signed 32-bit value, and for non-negative 32-bit operands it lies between 0 and both operands |
| Js.AndBitsIsBitwise | src/diagram.ts:230 | bit i of the AND of two naturals is set exactly when bit i is set in both |
| Js.BitAndIsBitwise | src/diagram.ts:230 | bit i of the 32-bit word of `a & b` is set exactly when bit i is set in the 32-bit words of both `a` and `b` |
| Js.BitNot | src/diagram.ts:231 | `~a` is minus the 32-bit value of `a`, minus one |
| Js.ShiftLeftOne | src/diagram.ts:232 | `a << 1` is congruent to `2a` modulo 2^32, in 32-bit range, and equal to `2a` when no bit is lost |
| Signal.SetOutput | src/diagram.ts:25-31 | a write stores the value and notifies the subscriber exactly when the value differs from the current output |
| Signal.WriteAll | src/diagram.ts:25-31 | after a run of writes the output is the last value written, with at most one notification per write |
| Signal.WriteAllNotifiesChanges | src/diagram.ts:25-31 | a run of writes notifies the subscriber exactly once per write whose value differs from the one before it |
| Signal.ChangesFromFront | src/diagram.ts:25-31 | counting changes from the last write back agrees with counting from the first write on |
| Signal.RepeatedWriteNotifiesOnce | src/diagram.ts:25-31 | writing the same value any number of times notifies once, or never when it was already the output |
| Alu.Make | src/diagram.ts:224-250 | a fresh ALU's output is the selected function of its ports |
| Alu.SetPortA | src/diagram.ts:252-255 | the `portA` setter changes port A only and recomputes the output |
| Alu.SetPortB | src/diagram.ts:257-260 | the `portB` setter changes port B only and recomputes the output |
| Alu.SetFunc | src/diagram.ts:262-270 | the `func` setter changes the selector only and recomputes the output |
| Alu.Apply | src/diagram.ts:228-234 | the function table, entry by entry, is stated by `Alu.FunctionTable` |
| Alu.FunctionTable | src/diagram.ts:228-234 | entry 0 adds, 1 is a bitwise AND bounded by its operands, 2 complements (0 gives -1), 3 doubles, 4 passes port B |
| Alu.NotTwice | src/diagram.ts:231 | complementing a 32-bit value twice gives it back |
| Coders.SetDecoderInput | src/diagram.ts:298-300 | the decoder's output becomes its input; the labels are unchanged |
| Coders.OneHot | src/diagram.ts:288-294 | over distinct labels, label i reads true exactly when the output is i, at most one label reads true, and a name that is not a label never does |
| Coders.LowestIsLowest | src/diagram.ts:334-344 | the encoder's output is the first set line when one is set, and 0 when none is |
| Coders.LowestFromIsLowest | src/diagram.ts:337-342 | the scan from line i finds the first set line at or above i, given all lines below i are clear |
| Coders.SetEncoderInput | src/diagram.ts:334-344 | `setInput` changes only the chosen line, and the output is then the lowest set line (0 if none) |
| Memory.Cells | src/diagram.ts:113-116 | the loaded cells are exactly the filled slots of the array, and every index reads its slot's word or 0 for a hole |
| Memory.SetAddr | src/diagram.ts:118-121 | the `addr` setter re-reads the memory at the new address and changes nothing else |
| Memory.LoadArray | src/diagram.ts:113-116 | installing an array replaces the cells and re-reads the current address |
| Memory.Tick | src/diagram.ts:123-132 | a clock edge outputs the word read before any write, then writes `data` at the address when write-enable is high, leaving every other address alone |
| Memory.WriteThenRead | src/diagram.ts:123-132 | a word written at one edge is the output of the next edge at the same address |
| Memory.WriteSurvives | src/diagram.ts:129 | a written word survives later writes to other addresses |
| Registers.Next | src/diagram.ts:173-181 | the value after a clock edge is stated by `Registers.Tick`: load, then count, then reset |
| Registers.Tick | src/diagram.ts:173-201 | load takes data, enable then counts modulo 2^bits, and reset wins over both; with no line high the value holds |
| Registers.CounterWraps | src/diagram.ts:212-221 | the 3-bit sequence counter goes from 7 back to 0 |
| Registers.StaysInRange | src/diagram.ts:173-181 | a register whose value and loaded data fit its width keeps fitting |
| Registers.CounterCounts | src/diagram.ts:178 | k edges of an enabled register add k modulo 2^bits |
| Bus.SetInput | src/diagram.ts:72-74 | `setInput` records one input and does not move the output |
| Bus.Select | src/diagram.ts:58-66 | the `select` setter routes the chosen input (0 when unset) to the output |
| Bus.Update | src/diagram.ts:76-78 | `update()` re-reads the selected input |
| Bus.NoGlitch | src/diagram.ts:72-78 | a new input reaches the output only after `update()`, and only when it is the selected one |
| Control.Opcode | src/diagram.ts:482 | the opcode field is the word divided by 2^12, rounded down, taken modulo 2^16 with the sign of the dividend: in 0..65535 for a non-negative word, in -65535..0 for a negative one |
| Control.OpcodeOfWord | src/diagram.ts:482 | the opcode the IR callback extracts from `op * 4096 + n` is `op`, and the address bits are `n` |
| Control.ControlLines | src/diagram.ts:504-583 | the control lines always drive five ALU request lines and select the memory, PC, AC or IR input of the bus |
| Control.LowestOfFive | src/diagram.ts:563-582 | the ALU function is the first of the five request lines that is set |
| Control.LabelsDistinct | src/diagram.ts:432-451 | the T-state labels and the opcode labels are each distinct |
| Control.LabelReads | src/diagram.ts:288-294 | a decoder built over distinct labels reads label k exactly when its output is k |
| Control.CapitalisedNamesNeverHold | src/diagram.ts:508-509 | `IncDec.Add` and `IncDec.And` read false for every opcode |
| Control.ControlTable | src/diagram.ts:504-583 | for each T-state and opcode: which registers load, when PC counts, when memory is written, when SC resets (at the opcode's last state), which bus input is selected, and which ALU function the encoder picks |
| Rtl.Edge | src/diagram.ts:591-604 | one clock edge: memory writes the bus at AR, AR loads the bus modulo 4096, DR, IR and AC load as their lines say (AC through the ALU with the new DR), the memory output follows AR, and SC resets on `rstSC` |
| Rtl.EdgeCounters | src/diagram.ts:173-181 | at a clock edge PC loads the bus modulo 4096 and counts modulo 4096 when enabled, load first, else holds; SC resets on `rstSC` and otherwise counts modulo 8 |
| Rtl.Transfer | src/diagram.ts:585-604 | one clock cycle; what it computes is stated by `Refinement.TickRefinesTransfer`, `Isa.TransferIsMicro` and `Isa.TransferWhileIdling` |
| Rtl.CounterStaysInRange | src/diagram.ts:452 | the sequence counter stays a 3-bit value across a cycle |
| Simulator.Initial | src/diagram.ts:378-502 | the constructed diagram; its wiring and zero registers are stated by `Refinement.InitialWired` |
| Simulator.Signals | src/diagram.ts:504-583 | keeps the diagram ready to tick; its effect is stated by `Refinement.SignalsEffect` |
| Simulator.TickRegisters | src/diagram.ts:591-604 | keeps the diagram ready to tick; its effect is stated by `Refinement.ClockEffect` |
| Simulator.Tick | src/diagram.ts:585-589 | keeps the diagram ready to tick; its effect is stated by `Refinement.TickRefinesTransfer` |
| Simulator.Step | src/diagram.ts:585-589 | keeps the diagram ready to tick; its effect is stated by `Refinement.StepRefinesTransfer` |
| Simulator.LoadMemArray | src/diagram.ts:636-638 | installs the image; its effect is stated by `Refinement.LoadKeepsWiring` |
| Refinement.InitialWired | src/diagram.ts:378-502 | the constructor wires every callback consistently, and all registers and the memory output start at 0 with no cell filled |
| Refinement.LoadKeepsWiring | src/diagram.ts:636-638 | `loadMemArray` keeps the wiring, replaces the cells and re-reads memory at AR |
| Refinement.ClockMemStep | src/diagram.ts:454-457 | the memory edge changes only the memory, and the bus output does not move |
| Refinement.ClockARStep | src/diagram.ts:463-466 | the AR edge re-addresses memory when AR changes and touches no other register |
| Refinement.ClockPCStep | src/diagram.ts:468 | the PC edge changes only PC |
| Refinement.ClockDRStep | src/diagram.ts:469-472 | the DR edge feeds the ALU's port B and changes no other register |
| Refinement.ClockACStep | src/diagram.ts:475-479 | the AC edge feeds port A and the zero flag and changes no other register |
| Refinement.ClockIRStep | src/diagram.ts:480-485 | the IR edge feeds the opcode decoder and changes no other register |
| Refinement.ClockSCStep | src/diagram.ts:486 | the SC edge feeds the T-state decoder and changes no other register |
| Refinement.ClockEffect | src/diagram.ts:591-604 | `tickRegisters` takes the projected state through one `Edge` with the armed lines and the bus value |
| Refinement.SelectBusEffect | src/diagram.ts:505-523 | choosing the bus input changes no register and puts that input on the bus |
| Refinement.AluLinesEffect | src/diagram.ts:563-582 | setting the five request lines changes no register and arms exactly those lines |
| Refinement.DriveEffect | src/diagram.ts:504-583 | driving a set of control lines changes no register and arms exactly those lines |
| Refinement.BusCarriesSource | src/diagram.ts:454-485 | every bus input carries the register it is wired to |
| Refinement.SignalsEffect | src/diagram.ts:504-583 | `signals()` changes no register, arms the lines of the current state, and puts their source on the bus |
| Refinement.TickRefinesTransfer | src/diagram.ts:585-589 | one `tick()` of a wired diagram keeps it wired and performs exactly one register-transfer cycle |
| Refinement.StepRefinesTransfer | src/diagram.ts:585-589 | one step of a wired diagram is one `tick()`, keeps it wired and performs one register-transfer cycle |
| Refinement.TicksRefineRun | src/diagram.ts:585-589 | k ticks perform exactly k register-transfer cycles |
| Isa.Perform | src/diagram.ts:504-583 | what a fetched word does; stated against the cycles by `Isa.ExecutePhase` |
| Isa.Execute | src/diagram.ts:504-604 | one instruction; stated against the clock by `Isa.InstructionCycle` |
| Isa.TransferIsMicro | src/diagram.ts:504-604 | within an instruction, a clock cycle is the micro-operation of its T-state and opcode |
| Isa.FetchPhase | src/diagram.ts:504-583 | T0 and T1 move PC to AR, increment PC modulo 4096 and put the fetched word in IR |
| Isa.ExecutePhase | src/diagram.ts:504-583 | from T2, the cycles up to the opcode's last state perform the instruction and return to T0 |
| Isa.ExecuteLoadAdd | src/diagram.ts:528-561 | `load` and `add` address the operand, load it into DR and then into AC (or add it) in three cycles |
| Isa.ExecuteStore | src/diagram.ts:535-555 | `store` addresses the operand and writes AC there in two cycles |
| Isa.ExecuteAnd | src/diagram.ts:541-549 | `and` takes three cycles and combines AC with the DR it already held |
| Isa.ExecuteRegisterOp | src/diagram.ts:544-561 | `jump`, `jumpz`, `comp` and `lsl` finish in the single cycle T2 |
| Isa.CycleOf | src/diagram.ts:504-604 | any step function that behaves like the cycle performs one whole instruction in LastState(op) + 1 cycles |
| Isa.InstructionCycle | src/diagram.ts:585-604 | from a fetch state, the opcode's cycle count of clock cycles performs exactly the fetched instruction and lands on the next fetch |
| Isa.WordsCovered | src/diagram.ts:482 | every word is an instruction word, has an opcode field naming no instruction, or has a magnitude of about 2^28 or more |
| Isa.TransferWhileIdling | src/diagram.ts:504-604 | past T1 of a word whose opcode field names no instruction, a clock cycle only advances SC, from T7 back to T0 |
| Isa.FetchSteps | src/diagram.ts:504-583 | the first two cycles fetch the word at PC into IR and step PC, whatever the word |
| Isa.IdleRun | src/diagram.ts:504-604 | from an idling state the cycles up to T7 change nothing but return SC to T0 |
| Isa.IdleCycleOf | src/diagram.ts:504-604 | any step function that idles like the cycle spends eight cycles on a word with an unassigned opcode and only steps PC |
| Isa.IdleCycle | src/diagram.ts:585-604 | from a fetch state, a word whose opcode field names no instruction takes eight clock cycles and only steps PC modulo 4096 |
| Assembler.SkipSpaces | src/app.ts:61-64 | `\s*`: the scan stops at the first non-space, with only spaces before it |
| Assembler.SkipDigits | src/app.ts:61-63 | `\d+`: the scan stops at the first non-digit, with only digits before it |
| Assembler.First | src/app.ts:61-62 | the alternation picks a listed mnemonic whose pattern matches at that point, and fails only when none does |
| Assembler.IndexOf | src/app.ts:73 | `ops.indexOf` is the first position of the name, or -1 |
| Assembler.Holes | src/app.ts:67 | the result array starts as 4096 holes |
| Assembler.Store | src/app.ts:84 | storing at index i fills slot i, grows the array to hold it, and keeps every other slot |
| Assembler.AssembleFrom | src/app.ts:68-85 | the loop from line i stops at the first malformed line, or fills slots i.. with the lines' words and keeps the slots before i |
| Assembler.Assemble | src/app.ts:66-87 | rejects with the first malformed line, succeeds exactly when no line is malformed, and then slot k holds the word of line k with holes after the last line |
| Assembler.OpsTable | src/app.ts:10 | the mnemonic table is eight distinct lower-case words: the operand and bare patterns' alternations in order, and the instruction decoder's labels |
| Assembler.SkipSpacesTo | src/app.ts:61 | the space scan stops exactly at the end of any run of spaces followed by a non-space |
| Assembler.SkipDigitsTo | src/app.ts:61 | the digit scan stops exactly at the end of any run of digits followed by a non-digit |
| Assembler.TrailerAtIff | src/app.ts:61-64 | the scanner's end-of-line test holds exactly when only spaces and an optional `//` comment remain |
| Assembler.ScansUnique | src/app.ts:61 | two different mnemonics cannot both match at the same point |
| Assembler.ShorterFails | src/app.ts:61 | `jump` does not match where `jumpz` is spelled, so the alternation's order does not matter |
| Assembler.FirstFinds | src/app.ts:61-62 | when exactly one listed mnemonic matches, the alternation returns it |
| Assembler.ScanOperandIff | src/app.ts:61 | the scanner returns a name and digits exactly when the line is spaces, an operand mnemonic, spaces, the digits, spaces and an optional comment |
| Assembler.ScanBareIff | src/app.ts:62 | the scanner returns `comp` or `lsl` exactly when the line is that word between spaces and an optional comment |
| Assembler.ScanLiteralIff | src/app.ts:63 | the scanner returns digits exactly when the line is those digits between spaces and an optional comment |
| Assembler.Classify | src/app.ts:71-83 | which pattern a line matches; stated by `Assembler.ClassifyAgrees` |
| Assembler.Word | src/app.ts:73-80 | the word a classified line stores; stated by `Assembler.WordFields` |
| Assembler.ClassifyAgrees | src/app.ts:71-83 | a line is classified by the first pattern that matches, with the groups that pattern captures, and is malformed exactly when no pattern matches |
| Assembler.Digits | src/app.ts:78 | every natural number has a numeral that `parseInt` reads back as that number |
| Assembler.ClassifyRender | src/app.ts:71-83 | every classification the assembler can produce comes from the line that renders it |
| Assembler.DisassembleClassifies | src/app.ts:71-83 | every rendered line classifies back to the line it was rendered from |
| Assembler.AssembleClassified | src/app.ts:66-87 | lines with well-formed classifications assemble to the image of those classifications |
| Assembler.AssembleDisassembled | src/app.ts:66-87 | assembling a rendered listing gives back that listing's image |
| Assembler.WordFields | src/app.ts:73-76 | an assembled instruction word carries its mnemonic's opcode, which the instruction decoder names by the same mnemonic, and its operand in the low twelve bits |
| Assembler.OperandNotMasked | src/app.ts:73 | an operand of 4096 or more spills into the opcode field, so `load 4096` is the word of `store 0` |
| Example.ProgramAssembles | src/app.ts:66-87 | the example program assembles to its listing's image |
| Example.ImageHoldsProgram | src/app.ts:84 | the assembled image holds the program's words at their line numbers |
| Example.LoadCycle | src/diagram.ts:528-561 | `load 6` takes five cycles and brings 5 into AC and DR |
| Example.AddCycle | src/diagram.ts:528-561 | `add 7` takes five cycles and makes AC 9 |
| Example.StoreCycle | src/diagram.ts:535-555 | `store 8` takes four cycles and writes AC to address 8 |
| Example.SpinsWith | src/diagram.ts:544-561 | a jump to its own address leaves the observable state unchanged every three cycles |
| Example.FirstPassWith | src/diagram.ts:585-589 | the first three instructions take 14 cycles and leave 9 in AC and at address 8, with PC on the jump |
| Example.RunsWith | src/diagram.ts:585-589 | after 14 + 3k cycles AC and address 8 hold 9 and PC is on the jump at 3 |
| Example.LoadedMachine | src/diagram.ts:636-638 | a freshly built diagram loaded with the image is wired, at fetch with PC 0, and holds the program |
| Example.ProgramRuns | src/app.ts:174-188 | after assembling and loading, 14 + 3k ticks leave 9 in AC and at address 8, PC at 3 and SC at 0 |

## Left out

- Display and logging are not modelled, because they never feed back into register values. This covers the LEDs, the seven-segment texts (`dig_write`, `changeText`, `HEX`), the SVG access (`get`, `high`, `low`, `signalLED`'s colouring) and every `console.log`.
  - `signalLED` returns its argument, so ACZ is modelled as `AC == 0`.
- The empty callbacks are not modelled because they do nothing: `onArrayChange`, and the decoders' `onOutputChange`. The same holds for the `RTLs` status strings (src/app.ts:11-59), which are only text.
- The page code of src/app.ts is not modelled. This covers the editor, `compile`'s reading of the editor lines, `resetMem`, and the `run`/`stop`/`next` timers. Clock ticks are a tick count parameter instead.
- Floating point is not modelled: all arithmetic is on unbounded integers.
  - JavaScript numbers lose precision above 2^53. That affects `parseInt` of a numeral with more than 15 digits, and AC + DR in the ALU once AC grows past 2^53.
- Simulator.Step: it is `tick()` on a diagram whose ALU selector is inside the function table and whose encoder has five lines, and the identity otherwise. A diagram built by the constructor never leaves that set (`Refinement.TicksRefineRun`).
  - On a selector outside the table the source would call `undefined` and throw. That case is not modelled.
- Simulator.Tick, Simulator.Signals, Simulator.TickRegisters, Simulator.Drive: their own contracts only keep the diagram ready to tick. What they compute is stated by `Refinement.TickRefinesTransfer`, `Refinement.SignalsEffect`, `Refinement.ClockEffect` and `Refinement.DriveEffect`.
- Control.ControlLines: its own contract only bounds the shape of the lines. The full table is `Control.ControlTable`.
- Line terminators: `.` in a `//` comment does not match a line terminator, so such a line is malformed (`CommentAt`).
- The earlier revisions `diagram.ts`, `build/diagram.js` and `build/app.js`, the prototype `example.ts`, the editor and the element-id tables are not part of this model. Only src/diagram.ts and the assembler of src/app.ts are.
- Js.BitAnd: its own contract only bounds the result. The bit-by-bit statement is `Js.BitAndIsBitwise`.
- Signal.WriteAll: its own contract bounds the count. The exact count is `Signal.WriteAllNotifiesChanges`.
- Rtl.Edge: the PC and SC clauses are stated by `Rtl.EdgeCounters` rather than by Edge's own contract.
- Isa.InstructionCycle: covers the words 0..32767. `Isa.IdleCycle` covers words whose opcode field names no instruction. A word of magnitude about 2^28 or more, whose 16-bit opcode field wraps back onto an instruction, is covered by neither (`Isa.WordsCovered`).
- Alu.Apply, Registers.Next, Rtl.Transfer, Simulator.Initial, Simulator.LoadMemArray, Isa.Perform, Isa.Execute, Assembler.Classify, Assembler.Word: these carry no contract of their own. The lemma named in each one's row states what it computes.
- Js.Pow2: stated only as positive. Its exact powers are used where needed through its definition.
