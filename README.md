# YAVME V2 virtual machine in Dafny

This project models the V2 virtual machine of YAVME ("Yet Another Virtual
Machine Experiment"). The V2 machine is a small byte-code interpreter with:

- a byte memory of a size chosen at construction (255 by default);
- a six-byte register file named A, B, C, D, PC and FL, where I is a second
  name for FL's slot;
- a flags byte FL, with SF = 1, ZF = 2 and OF = 4;
- an IO plugin that supplies bytes and 16-bit words and accepts them;
- a fetch-decode-execute loop over thirteen opcodes, NOP to JMN and END.

The model has two layers.

- `Semantics` describes the machine as a value. A `Machine` holds memory,
  registers and the IO plugin's state, and there is one function per
  operation. An operation returns the machine it leaves behind plus a
  `Result`. Where the C# code throws an index exception, the result is
  `Err`, and the machine returned carries exactly the writes made before
  the throw. For example, a word `Poke` whose low byte falls outside memory
  has already stored its high byte.
- `V2.VM` is the class as the program has it. It holds a memory array, a
  register array and an IO plugin object, and its methods change them in
  place. Every method is proved to do to `State()` exactly what the
  matching `Semantics` function does.

What the source promises is proved about the `Semantics` functions, in
`Flags`, `Bits` and `Properties`. `Programs` follows the test programs turn
by turn, both over the functions and through the class.

Faithful details the model keeps:

- **Register names.** A name selects slot `name - 1`, computed in a byte, so
  name 0 selects slot 255. I and FL share slot 5, PC is slot 4, and X (7)
  lies outside the file. GET and PUT take the register name from the
  program, so they can read or write PC and FL, or throw.
- **Clearing a flag** subtracts the flag's value from FL modulo 256 (see
  Findings).
- **Words** are stored big-endian: the high byte at the address and the low
  byte at the next one. The word `Poke` wraps that next address modulo 2^16;
  the word `Peek` does not.
- **PC** counts modulo 256.
- **Unknown opcodes and width tags.** An unknown opcode only moves PC on by
  one. A width tag other than 1 or 2 is consumed and does nothing else; INC
  has cleared the flags by then.
- **Fault order in PUT.** PUT reads the register before it checks the
  memory address. This is C#'s order for `Memory[location] = GetRegisterValue(r1)`.
- **Fault order in GET.** GET reads memory before it checks the register.
- **Flag readings.** The instruction lemmas state FL as a packed byte
  (`Pack(sf, zf, of)`). `Flags.PackReadsBack` turns such a byte into the
  three flag readings.

## Model

| member | source | states |
|---|---|---|
| Isa.ToRegisterOffset | VMLib/VM_V2.cs:78-82 | register name r selects slot r - 1; name 0 wraps round to slot 255 |
| Bits.Join | VMLib/VM_V2.cs:548-557 | the word built from a high and a low byte splits back into those same two bytes |
| Bits.LayoutMatchesMasks | TestVM/BasicVM_V2_Tests.cs:41-68 | the low byte of a word is `v & 0xff` and the high byte is `(v >> 8) & 0xff`, as the layout test asserts |
| Flags.AsByte | VMLib/VM_V2.cs:103-106 | the byte form of a flag is 1 exactly when it is set and 0 exactly when it is clear |
| Flags.FlagTable | VMLib/VM_V2.cs:540-546 | each flag value reads as itself and as no other flag; raising a flag in an empty register gives its value |
| Flags.RaiseSetsOnlyIt | VMLib/VM_V2.cs:125-132 | after ORing a flag in, that flag reads set, every other bit of FL is unchanged, and every other flag reads as before |
| Flags.RaiseFromClear | VMLib/VM_V2.cs:125-132 | raising a flag in a cleared register yields a byte in which exactly that flag reads set |
| Flags.LowerSetFlag | VMLib/VM_V2.cs:134-138 | clearing a flag that is set subtracts exactly its bit: the result equals the AND-NOT clear, the flag then reads clear, and the other flags read as before |
| Flags.LowerClearFlagCorrupts | VMLib/VM_V2.cs:134-138 | clearing a flag that is NOT set changes FL and disagrees with AND-NOT; on an empty FL it leaves that very flag set |
| Flags.ClearBitClearsOnlyIt | VMLib/VM_V2.cs:134-138 | the AND-NOT clear removes the flag's bit whatever FL held, and keeps every other bit and every other flag |
| Flags.ClearBitKeepsClear | VMLib/VM_V2.cs:134-138 | the AND-NOT clear of a flag that is not set leaves FL unchanged |
| Flags.PackReadsBack | VMLib/VM_V2.cs:108-112 | a flags byte built from three booleans reads back as those three flags |
| Flags.ResetHasNoFlags | VMLib/VM_V2.cs:141-144 | after a reset to 0, no flag reads set |
| Semantics.Initial | VMLib/VM_V2.cs:15-21 | a new VM has the requested memory size, zeroed memory and a zeroed six-slot register file |
| Properties.PokeWordThenPeekWord | VMLib/VM_V2.cs:49-64 | a word written where it fits reads back. The high byte v / 256 is at a and the low byte v % 256 at a + 1; no other cell, register or IO state changes |
| Properties.PokeWordOfPeekWord | VMLib/VM_V2.cs:49-64 | writing back the word just read leaves the machine exactly as it was |
| Properties.PokeWordFaults | VMLib/VM_V2.cs:49-55 | a word whose low byte falls outside memory throws after storing its high byte; one that starts outside memory throws having changed nothing |
| Properties.FetchReadsAtPc | VMLib/VM_V2.cs:149-166 | a fetch returns memory[PC] or throws for a PC outside memory; either way PC becomes (PC + 1) mod 256 and nothing else changes |
| Properties.StepExecutes | VMLib/VM_V2.cs:404-461 | a turn that fetches an opcode other than END runs that opcode with PC past it; the loop goes on exactly when that succeeds |
| Properties.NopEffect | VMLib/VM_V2.cs:194 | NOP, and every byte that is no instruction, leaves the machine unchanged and succeeds |
| Properties.StepSkipsNop | VMLib/VM_V2.cs:406-412 | a turn on NOP or an unknown opcode only moves PC on by one and keeps the loop running |
| Properties.StepHaltsExactlyAtEnd | VMLib/VM_V2.cs:458-460 | a turn halts the loop if and only if it fetches END, and then it has only moved PC past END |
| Properties.AddToAEffect | VMLib/VM_V2.cs:346-351 | adding x sets A to (A + x) mod 256; FL then holds OF alone when the unsigned sum exceeds 127, and no flag otherwise |
| Properties.AddToAKeeps | VMLib/VM_V2.cs:346-351 | adding to A changes only A and FL |
| Properties.SubFromAEffect | VMLib/VM_V2.cs:363-373 | subtracting x sets A to (A - x) mod 256; ZF is set exactly when A = x, SF exactly when A < x, OF never |
| Properties.SubFromAKeeps | VMLib/VM_V2.cs:363-373 | subtracting from A changes only A and FL |
| Properties.IncrementBCEffect | VMLib/VM_V2.cs:305-313 | B:C becomes (B:C + 1) mod 65536, with OF alone set exactly when B:C + 1 exceeds 32767; only B, C and FL change |
| Properties.IncrementBCAfter | VMLib/VM_V2.cs:305-313 | the word increment, applied after the fetch and the flag reset, gives the same B:C and FL, and changes only B, C, FL and PC |
| Properties.StepIncByte | VMLib/VM_V2.cs:289-303 | INC with the byte tag sets A to (A + 1) mod 256 and OF exactly when A + 1 > 127, clears ZF and SF, puts PC past the tag, and changes nothing else |
| Properties.IncByteEffect | VMLib/VM_V2.cs:289-303 | the same, for the INC routine entered with PC past the opcode |
| Properties.StepIncWord | VMLib/VM_V2.cs:305-313 | INC with the word tag sets B:C to (B:C + 1) mod 65536 and OF exactly when B:C + 1 > 32767, puts PC past the tag, and changes nothing but B, C, FL and PC |
| Properties.IncWordEffect | VMLib/VM_V2.cs:305-313 | the same, for the INC routine entered with PC past the opcode |
| Properties.StepAdd | VMLib/VM_V2.cs:342-352 | ADD x stores x in B and (A + x) mod 256 in A. OF is set exactly when A + x > 127, and ZF and SF stay clear; only A, B, FL and PC change |
| Properties.AddEffect | VMLib/VM_V2.cs:342-352 | the same, for the ADD routine entered with PC past the opcode |
| Properties.StepDec | VMLib/VM_V2.cs:321-335 | DEC sets A to (A - 1) mod 256. ZF is set exactly when A was 1 and SF exactly when A was 0 (the result is 255 then); OF stays clear and only A, FL and PC change |
| Properties.DecEffect | VMLib/VM_V2.cs:321-335 | the same, for the DEC routine entered with PC past the opcode |
| Properties.StepSub | VMLib/VM_V2.cs:359-374 | SUB x stores x in B and (A - x) mod 256 in A. ZF is set exactly when A = x, SF exactly when A < x, and OF stays clear; only A, B, FL and PC change |
| Properties.SubEffect | VMLib/VM_V2.cs:359-374 | the same, for the SUB routine entered with PC past the opcode |
| Properties.StepJmp | VMLib/VM_V2.cs:243-247 | JMP t sets PC to t and changes nothing else |
| Properties.StepJmz | VMLib/VM_V2.cs:254-269 | JMZ t sets PC to t if and only if ZF is set, and otherwise past the operand; nothing else changes |
| Properties.StepJmn | VMLib/VM_V2.cs:276-284 | JMN t sets PC to t if and only if SF is set, and otherwise past the operand; nothing else changes |
| Properties.JumpEffect | VMLib/VM_V2.cs:243-284 | the jump routine entered with PC past the opcode sets PC to the target when taken, and past the operand otherwise; moving PC leaves ZF and SF as they were |
| Properties.StepGet | VMLib/VM_V2.cs:379-385 | GET r, a loads memory[a] into the slot r names, after PC has moved past both operands. It throws (PC moved) for an address outside memory first, then for a name outside the register file |
| Properties.GetEffect | VMLib/VM_V2.cs:379-385 | the same, for the GET routine entered with PC past the opcode |
| Properties.StepPut | VMLib/VM_V2.cs:390-396 | PUT r, a stores the slot r names, read after PC has moved, at memory[a] and changes nothing else. It throws for a name outside the file first, then for an address outside memory |
| Properties.PutEffect | VMLib/VM_V2.cs:390-396 | the same, for the PUT routine entered with PC past the opcode |
| Properties.PutThenGet | VMLib/VM_V2.cs:379-396 | PUT r, a followed by GET r, a restores the register; the machine differs from the start only in PC and in memory[a], which now holds the register |
| Properties.StepInpByte | VMLib/VM_V2.cs:200-208 | INP with the byte tag moves the plugin's next byte into A and consumes it; with no byte left it throws after PC has moved |
| Properties.InpByteEffect | VMLib/VM_V2.cs:200-208 | the same, for the INP routine entered with PC past the opcode |
| Properties.StepInpWord | VMLib/VM_V2.cs:210-213 | INP with the word tag moves the plugin's next word into B:C and consumes it, keeping A, D, FL and memory; with no word left it throws after PC has moved |
| Properties.InpWordEffect | VMLib/VM_V2.cs:210-213 | the same, for the INP routine entered with PC past the opcode |
| Properties.StepOut | VMLib/VM_V2.cs:220-236 | OUT hands A (byte tag) or B:C (word tag) to the plugin and changes nothing but PC |
| Properties.OutEffect | VMLib/VM_V2.cs:220-236 | the same, for the OUT routine entered with PC past the opcode |
| Properties.StepIgnoresOtherWidth | VMLib/VM_V2.cs:200-316 | INP, OUT or INC with a tag other than 1 or 2 only consumes the tag; INC has cleared the flags by then |
| Properties.OtherWidthEffect | VMLib/VM_V2.cs:200-316 | the same, for the routine entered with PC past the opcode |
| Properties.StepConsumesArity | VMLib/VM_V2.cs:194-396 | every turn that completes, other than a jump and GET into PC, leaves PC just past its opcode and operands: 0 for NOP, DEC and unknown bytes, 1 for INP, OUT, INC, ADD and SUB, 2 for GET and PUT |
| Properties.TwoOperandsConsumed | VMLib/VM_V2.cs:379-396 | GET and PUT that complete leave PC three bytes on, unless GET loads PC |
| Properties.OneOperandConsumed | VMLib/VM_V2.cs:200-374 | INP, OUT, INC, ADD and SUB that complete leave PC two bytes on |
| Properties.RunSplit | VMLib/VM_V2.cs:401-463 | n + k turns of the loop are n turns followed, if still running, by k more |
| Properties.RunStopped | VMLib/VM_V2.cs:401-463 | once the loop has halted or faulted, more turns change nothing |
| Properties.RunHaltsOnlyAtEnd | VMLib/VM_V2.cs:401-463 | if the loop halts, some earlier turn was running with END at PC, and the halt is that turn's outcome |
| Properties.RunHaltsAtEnd | VMLib/VM_V2.cs:458-460 | a running turn with END at PC halts the loop, whatever fuel is left |
| Properties.LoadFromPlaces | VMLib/VM_V2.cs:527-531 | the copy loop, resumed at byte i, puts the program's bytes from i on at their own addresses and keeps everything else |
| Properties.LoadPlacesProgram | VMLib/VM_V2.cs:527-531 | a program that fits lands at addresses 0 on; the rest of memory, the registers and the plugin are unchanged |
| Properties.LoadFromOverflows | VMLib/VM_V2.cs:527-531 | the copy loop, resumed at byte i, fills memory to its end and then throws at the first address past it |
| Properties.LoadOverflowFaults | VMLib/VM_V2.cs:527-531 | a program longer than a memory of under 256 bytes fills memory with its first bytes and throws at the address past the end |
| V2.ScriptedIO.GetByte | VMLib/VM_V2.cs:469-476 | reading a byte returns and consumes the next scripted byte, or fails when none is left |
| V2.ScriptedIO.GetWord | VMLib/VM_V2.cs:469-476 | reading a word returns and consumes the next scripted word, or fails when none is left |
| V2.ScriptedIO.PutByte | VMLib/VM_V2.cs:469-476 | writing a byte appends it to the log |
| V2.ScriptedIO.PutWord | VMLib/VM_V2.cs:469-476 | writing a word appends it to the log |
| V2.VM.constructor | VMLib/VM_V2.cs:15-21 | a new VM's arrays are fresh and its state is `Initial(size)` |
| V2.VM.Poke | VMLib/VM_V2.cs:33-36 | stores the byte at the address, or throws and changes nothing for an address outside memory |
| V2.VM.PeekAsByte | VMLib/VM_V2.cs:41-44 | returns memory[address], or throws for an address outside memory |
| V2.VM.PokeWord | VMLib/VM_V2.cs:49-55 | stores the high byte at the address and then the low byte at address + 1 (mod 2^16), stopping at the first write that throws |
| V2.VM.Peek | VMLib/VM_V2.cs:60-64 | returns the word whose high byte is at the address and low byte at address + 1, or throws at the first of them outside memory |
| V2.VM.GetRegisterValue | VMLib/VM_V2.cs:87-90 | returns the slot the name selects, or throws for a name outside the file |
| V2.VM.SetRegisterValue | VMLib/VM_V2.cs:95-98 | writes the slot the name selects and nothing else, or throws and changes nothing |
| V2.VM.GetFlagValue | VMLib/VM_V2.cs:108-112 | returns whether `FL & f == f` |
| V2.VM.GetFlagValueAsByte | VMLib/VM_V2.cs:103-106 | returns 1 when the flag reads set and 0 when it reads clear |
| V2.VM.SetFlagValue | VMLib/VM_V2.cs:125-139 | raises f with OR or lowers it by subtraction mod 256, changing only FL; raising a named flag in an empty FL leaves FL equal to that flag |
| V2.VM.SetFlagValueAsByte | VMLib/VM_V2.cs:117-120 | any non-zero byte raises the flag and 0 lowers it |
| V2.VM.ResetFlags | VMLib/VM_V2.cs:141-144 | sets FL to 0 and changes nothing else |
| V2.VM.GetPC | VMLib/VM_V2.cs:149-157 | returns PC and, when asked, moves PC on by one mod 256, changing nothing else |
| V2.VM.GetNextValue | VMLib/VM_V2.cs:162-166 | performs a fetch: PC moves on, then the byte at the old PC is returned or the access throws |
| V2.VM.GetInstruction | VMLib/VM_V2.cs:69-73 | the opcode is the next byte, fetched as above |
| V2.VM.PutNextValueTo | VMLib/VM_V2.cs:171-174 | fetches the next byte and writes it to the named register, throwing at the first failing step |
| V2.VM.SetBCRegisterValue | VMLib/VM_V2.cs:176-181 | stores the word's high byte in B and its low byte in C |
| V2.VM.GetBCRegisterValue | VMLib/VM_V2.cs:183-192 | returns B * 256 + C |
| V2.VM.Inp | VMLib/VM_V2.cs:200-215 | changes the VM exactly as the INP semantics does (see StepInpByte, StepInpWord, StepIgnoresOtherWidth) |
| V2.VM.Out | VMLib/VM_V2.cs:220-236 | changes the VM exactly as the OUT semantics does (see StepOut) |
| V2.VM.Jmp | VMLib/VM_V2.cs:243-247 | changes the VM exactly as the JMP semantics does (see StepJmp) |
| V2.VM.Jmz | VMLib/VM_V2.cs:254-269 | changes the VM exactly as the JMZ semantics does (see StepJmz) |
| V2.VM.Jmn | VMLib/VM_V2.cs:276-284 | changes the VM exactly as the JMN semantics does (see StepJmn) |
| V2.VM.Inc | VMLib/VM_V2.cs:289-316 | changes the VM exactly as the INC semantics does (see StepIncByte, StepIncWord) |
| V2.VM.Dec | VMLib/VM_V2.cs:321-335 | changes the VM exactly as the DEC semantics does (see StepDec) |
| V2.VM.Add | VMLib/VM_V2.cs:342-352 | changes the VM exactly as the ADD semantics does (see StepAdd) |
| V2.VM.Sub | VMLib/VM_V2.cs:359-374 | changes the VM exactly as the SUB semantics does (see StepSub) |
| V2.VM.Get | VMLib/VM_V2.cs:379-385 | changes the VM exactly as the GET semantics does (see StepGet) |
| V2.VM.Put | VMLib/VM_V2.cs:390-396 | changes the VM exactly as the PUT semantics does (see StepPut) |
| V2.VM.Execute | VMLib/VM_V2.cs:408-461 | dispatches one opcode exactly as the semantics does; NOP and unknown opcodes change nothing |
| V2.VM.Run | VMLib/VM_V2.cs:401-463 | the loop's final state and status are those of the fuel-bounded `Run` semantics: halted at END, faulted at the first throw, or running when the fuel is spent |
| Executive.Init | VMLib/VM_V2.cs:513-523 | size 0 builds a VM of the default 255 bytes; any other size is used as given |
| Executive.Load | VMLib/VM_V2.cs:527-531 | pokes program byte i at address i mod 256 through a byte cursor, stopping at the first write that throws |
| Executive.Run | VMLib/VM_V2.cs:525-534 | loads the program, then runs the loop; a load that throws ends the run as faulted |
| Programs.LoadedAtZero | VMLib/VM_V2.cs:525-531 | a program that fits a fresh VM lands at address 0 with PC 0 and the plugin untouched |
| Programs.DecodesFrom | VMLib/VM_V2.cs:162-166 | with a program at address 0 and PC at j, the bytes fetched from PC on are the program's from j on |
| Programs.FlagSequence | TestVM/BasicVM_V2_Tests.cs:74-98 | from a clear FL, raising OF, ZF and SF makes OF read set; lowering OF then makes it read clear and leaves ZF set |
| Programs.FlagRegistersTest | TestVM/BasicVM_V2_Tests.cs:74-98 | the same sequence through the VM's flag methods gives false, true, false, true |
| Programs.FlagRegistersWithBytesTest | TestVM/BasicVM_V2_Tests.cs:100-125 | the same sequence through the byte forms gives 0, 1, 0, 1 |
| Programs.SimpleRuns | TestVM/BasicVM_V2_Tests.cs:130-146 | NOP, END halts on the second turn having changed only PC, which ends at 2 |
| Programs.SimpleScenario | TestVM/BasicVM_V2_Tests.cs:130-146 | NOP, END loaded into a fresh default VM halts |
| Programs.SimpleTest | TestVM/BasicVM_V2_Tests.cs:130-146 | the same through the VM object |
| Programs.IncByteFrom0 | TestVM/BasicVM_V2_Tests.cs:151-177 | the INC byte program halts having written exactly the byte read plus 2, mod 256 |
| Programs.IncByteScenario | TestVM/BasicVM_V2_Tests.cs:151-177 | fed the byte 10, the INC byte program halts having written 12 |
| Programs.IncByteTest | TestVM/BasicVM_V2_Tests.cs:151-177 | the same through the VM object: status Halted, log [12] |
| Programs.IncWordFrom0 | TestVM/BasicVM_V2_Tests.cs:179-205 | the INC word program halts having written exactly the word read plus 2, mod 65536 |
| Programs.IncWordScenario | TestVM/BasicVM_V2_Tests.cs:179-205 | fed the word 10, the INC word program halts having written 12 |
| Programs.IncWordTest | TestVM/BasicVM_V2_Tests.cs:179-205 | the same through the VM object: status Halted, log [12] as a word |

## Left out

- The console IO plugin (VMLib/VM_V2.cs:481-504) is not modelled. It does
  console IO and parses numbers. The plugin is instead a scripted
  `ScriptedIO`: reads come from fixed queues of bytes and words, and writes
  go to a log. A read from an empty queue fails with `InputExhausted`, which
  stands for whatever the real plugin would throw.
- The test files' `IO` mock returns the last value written. The scenarios
  check the log's contents instead.
- Executive.Init: the `io ?? new ConsoleIOPlugin()` default is not modelled.
  An IO plugin must be passed.
- Executive.Init and Executive.Run: the static `Executive.vm` field is
  replaced by returning the VM from `Init` and passing it to `Run`.
- `EnumHelper.Max` (VMLib/VM_V2.cs:603-619) uses reflection and is not
  modelled. It is replaced by the value it yields for `RegisterName`: 6,
  the value of the last declared member, FL.
- The `UShortToBytesLayout` overlay (VMLib/VM_V2.cs:548-557) is written as
  arithmetic: high byte `v / 256`, low byte `v % 256`. This is what the
  overlay gives on a little-endian host, and what the layout test asserts.
- V2.VM.Run and Semantics.Run: bounded by `fuel` turns. The source loop
  need not terminate; status `Running` means the fuel ran out first.
- C# exceptions become `Err` results with a `Fault` naming the address or
  register offset. The exception types are not modelled.
- The public setters of `Memory`, `Registers` and `IO`, which could swap the
  arrays, are not modelled: the arrays are fixed at construction.
- `GetPC`'s default argument is explicit. Nothing in the source calls
  `GetPC(false)`.
- The enums are byte constants in `Isa` and `Flags`. Casting an unknown
  byte to `Instruction` or `InstructionWidth` keeps the byte.
- The V1 machine and its tests are not part of this model.

## Findings

| source | as written | input that shows it | evidently intended | confidence | as-written member | corrected member |
|---|---|---|---|---|---|---|
| VMLib/VM_V2.cs:134-138 | `SetFlagValue(f, false)` stores `FL - f` cut to a byte, which clears f only when f is already set | FL = 0, `SetFlagValue(OF, false)`: FL becomes 252, and OF then reads set | clear only f's bit (`FL & ~f`), leaving FL = 0 | not executed | Flags.LowerClearFlagCorrupts | Flags.ClearBitClearsOnlyIt |

`Semantics.SetFlag`, and through it `V2.VM.SetFlagValue`, keep the
subtraction, so that the model does what the code does. `Flags.ClearBit` is
the corrected clear. `Flags.LowerSetFlag` proves that the two agree whenever
the flag is set. That covers every clear the tests perform, and no
instruction clears a single flag.
