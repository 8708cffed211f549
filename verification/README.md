# KlaussCPU: machine, assembler, generator, interrupts and streaming code

KlaussCPU is a 64-bit soft processor with its own instruction set, an assembler written in
Python (`tools/vsim/kasm.py`), a generator of random programs for differential runs
(`tools/vsim/randprog.py`), hand-written assembly for hazard measurement
(`perf/m7/gen_probe.py`), a network boot loader, an RFB viewer for its framebuffer and drivers for
its AES and SHA engines. This project models that software around one formal machine and proves
what it promises, for all inputs.

* **The machine.** `Isa` and `Encoder` give every instruction kasm emits a strict binary form;
  `EncoderWords` gives the words of each as numbers.
  `Machine` is the programmer's model: sixteen 64-bit registers, a 32-bit SP, the flags Z, S, C
  and V, byte memory, device registers with a log of accesses, interrupt enable and mask; `MachineLaws`, with
  `BitLaws`, says what its instructions compute without its formulas. `Monitor`
  runs a program and watches it: `Run(..).ok` says that every access so far was aligned and inside
  the declared data window, a device register or a stack word that was pushed and not yet popped,
  that the stack stayed within its declared depth, and that every return popped the address its own
  call pushed. `Fetch` carries such runs over to fetching and decoding from memory.
* **Assembler and generator.** `Kasm` holds class `Asm`, `MemImage` the memory files, `Listing` what
  assembled words mean. `RandShape`, `RandDraws`, `RandRuns`, `RandSym`, `RandGen` and `RandProg` lead
  from the generator's loops over an arbitrary random stream, whose every draw is accounted for,
  through symbolic code and labels, to runs of the assembled words: whatever is drawn, the program
  halts and stays in its window.
* **Kernels.** `Fib`, `Cycles` with `Chase` and `Measured`, and `Uart` with `Dump` and `ProbeParser`
  prove the recursive Fibonacci routine, the Sattolo shuffle with the pointer chase, and the counter
  dump whose text the Python parser reads back.
* **Interrupts.** `Interrupts` has the 64-bit frame and both handlers; `Interleave` weaves a handler
  into a run at an arbitrary set of instruction boundaries; `IrqRuns` and `RandIrq` show that
  accepted and generated programs do not notice, fetched from memory or not, and that every tick
  is counted; `Crit` and `Sections`
  cover DI and EI.
* **Streams.** `Netboot` covers every history of connections and bytes, `NetbootWire` its bytes on
  the wire, and `Trampoline` goes on to the running image; `Screen`, `Hextile` and `Viewer` go from
  RFB bytes to pixels, and `HextileWire` from written tiles to the same pixels.
* **Crypto drivers.** `Sha`, `Contexts`, `Hmac`, `Counter` and `CryptoBytes` prove chaining, padding, save and
  restore, midstates and counters over an arbitrary compression function and block cipher.
* **Conditions.** `Conditions` proves the table of conditions and the 32-bit compare forms.

Code that changes state is a class or a method proved against a function of the old state (`Asm`,
`Rng`, `Receiver`, `RfbClient`, `BuildBlock`, `SoftwareCtr`); assembly text is code for the machine,
and what is proved is about its runs. Constants and layouts follow the repository.

Where code and text disagree, the code is followed:

* The comment of `_crit` (`tools/vsim/tests.py:180-181`) speaks of reading the handler's counter at
  entry and exit, while the program compares two reads at the exit. `Crit.WindowClosed` proves both:
  the exit reads equal each other and the entry read.
* `tools/netboot/netboot.c:278-281` resets the image length but neither the ready flag nor the staging
  area. A connection that comes in between the acknowledgement and the launch can therefore change
  what is launched. `Netboot.LaunchExact` gives the exact condition on such connections. A header
  that announces 0xFFFFFFFF bytes is refused but leaves that length behind; the launch then rounds
  it up to 0 in 32 bits (`Netboot.LostImage`). A refused length that rounds up to more than
  0x7FF0000, as 0xFFFFFFF8 does, makes the trampoline copy over itself (`Trampoline.Overrun`). A
  repeated header with half an image leaves a torn one (`Netboot.TornImage`).
* `tools/vsim/randprog.py:3-6` promises that every program halts and stays in 0x10000..0x10800. Both
  also need the code to end below 0x10000, which 776 blocks always do (`RandRuns.SmallFits`), and
  with a larger `span` the window is that span. The proofs carry the first condition and compute the
  second.
* `_fill` (`tools/vnc_viewer.py:129-133`) does not clip. `Screen.FillExact` says exactly which boxes
  are filled without touching a pixel outside, `Screen.FillSize` which keep the framebuffer's size,
  and `Screen.FillWraps` shows a box that paints the next row.

## Model

| member | source | states |
|---|---|---|
| `Bits.OrDisjoint` | tools/vsim/kasm.py:29-40 | or-ing a field shifted above bit n onto a value below bit n adds it: no carry, no overlap |
| `Bits.SplitOrFields` | tools/vsim/kasm.py:135-335 | any list of fields or-ed at their shifts splits back into exactly those fields |
| `Bits.OrFieldsSplit` | tools/vsim/kasm.py:135-335 | every word of the layout's width is the or of its own fields |
| `Encoder.DecodeEncode` | tools/vsim/kasm.py:135-335 | the word-0 decoder gives back every legal instruction from what the encoder made of it, whatever words follow in memory |
| `Encoder.EncodeDecode` | ISA_ENCODING_V2_MAP.md:17-87 | the decoder is strict: a word it accepts is exactly the encoding of the legal instruction it returns, reserved bits included |
| `EncoderWords.AluWords` | tools/vsim/kasm.py:135-138 | the word of every register operation as a number: length, class, op, F, W and the three registers at their literal weights |
| `EncoderWords.ImmediateWords` | tools/vsim/kasm.py:140-172 | the words of every immediate operation, SETR, SETR64 and LEAPC as numbers |
| `EncoderWords.CompareWords` | tools/vsim/kasm.py:175-189 | the words of CMP, its immediate forms and SETcc as numbers |
| `EncoderWords.ShiftWords` | tools/vsim/kasm.py:192-196 | the words of shifts and rotates by an embedded and by a register count as numbers |
| `EncoderWords.UnaryWords` | tools/vsim/kasm.py:198-204 | the words of INC, DEC and COPY as numbers |
| `EncoderWords.LoadWords` | tools/vsim/kasm.py:207-221 | the words of a load in each addressing mode as numbers |
| `EncoderWords.StoreWords` | tools/vsim/kasm.py:223-236 | the words of a store in each addressing mode as numbers |
| `EncoderWords.BranchWords` | tools/vsim/kasm.py:239-256 | the words of relative, absolute and register jumps and calls as numbers |
| `EncoderWords.FusedWords` | tools/vsim/kasm.py:258-270 | the words of fused branches against a register, a short and a long immediate as numbers |
| `EncoderWords.StackWords` | tools/vsim/kasm.py:272-303 | the words of RET, IRET, PUSH, POP, PUSHV, GETSP, SETSP, ADDSP, ENTER, LEAVE and LEAVERET as numbers, 0x65800000 for RET and 0x65C00000 for IRET |
| `EncoderWords.MulDivWords` | tools/vsim/kasm.py:306-320 | the words of MUL, MULV, DIV and MOD as numbers |
| `EncoderWords.SystemWords` | tools/vsim/kasm.py:323-335 | the words of NOP, HALT, WAIT, TRAP, DI and EI as numbers |
| `BitLaws.BitsOf` | CPU_ARCHITECTURE.md:198-222 | and, or and exclusive or of any two numbers, bit by bit |
| `BitLaws.AndLow` | perf/m7/gen_probe.py:104-117 | masking with 2^k - 1 is the remainder by 2^k |
| `Machine.LoadStore` | CPU_ARCHITECTURE.md:51-66 | a little-endian load of n bytes returns the stored value modulo 2^(8n) |
| `Machine.Load64Store64` | CPU_ARCHITECTURE.md:248-267 | a 64-bit load at the address of a 64-bit store returns its value |
| `Machine.Load64Other` | CPU_ARCHITECTURE.md:248-267 | a 64-bit store leaves every other doubleword as it was |
| `MachineLaws.DivideLaw` | CPU_ARCHITECTURE.md:198-222 | DIV and MOD of the same registers, signed or not: quotient times divisor plus remainder is the dividend, the remainder is smaller than the divisor and has the dividend's sign; division by zero and the one overflow as documented |
| `MachineLaws.TruncatesOnce` | CPU_ARCHITECTURE.md:198-222 | no other quotient and remainder satisfy this |
| `MachineLaws.MultiplyLaw` | CPU_ARCHITECTURE.md:198-222 | the high and the low result of MUL are the two halves of one exact product, signed or not |
| `MachineLaws.WideResult` | CPU_ARCHITECTURE.md:198-222 | a W result agrees with the full one in its low 32 bits and is sign-extended |
| `MachineLaws.LogicBits` | CPU_ARCHITECTURE.md:198-222 | AND, OR and XOR, bit by bit |
| `MachineLaws.ShiftBits` | CPU_ARCHITECTURE.md:198-222 | where each bit of a shifted or rotated register comes from |
| `MachineLaws.ImmediateForms` | CPU_ARCHITECTURE.md:135-151 | an operation, compare, product or SETR with a 32-bit immediate does what a register with the extended immediate does |
| `MachineLaws.ShortForms` | CPU_ARCHITECTURE.md:135-151 | the one-word immediates do what the two-word ones do |
| `MachineLaws.StepForms` | CPU_ARCHITECTURE.md:198-222 | INC and DEC add and subtract an immediate 1 |
| `MachineLaws.CountForms` | CPU_ARCHITECTURE.md:198-222 | an embedded shift count does what a register count does, flags of a rotate by one aside; COPY is OR of a register with itself |
| `MachineLaws.LoadedNumber` | CPU_ARCHITECTURE.md:243-247 | what a load leaves is the loaded bytes as a number, signed or not |
| `MachineLaws.JumpTargets` | CPU_ARCHITECTURE.md:269-287 | a taken jump goes to PC plus four times the signed displacement, to its absolute target or to its register; a call pushes the address behind it |
| `MachineLaws.FusedTarget` | CPU_ARCHITECTURE.md:269-287 | a fused branch goes by words when its relation holds, else to the next instruction, and changes nothing else |
| `MachineLaws.PushForms` | CPU_ARCHITECTURE.md:303-319 | PUSH and PUSHV move SP down by 8 and leave the value there, and nothing else |
| `MachineLaws.PopPushed` | CPU_ARCHITECTURE.md:303-319 | POP after PUSH copies a register and brings SP back |
| `MachineLaws.EnterForms` | CPU_ARCHITECTURE.md:316-316 | ENTER n saves r15, makes it SP and leaves room for n dwords |
| `MachineLaws.EnterLeaves` | CPU_ARCHITECTURE.md:316-317 | LEAVE undoes ENTER |
| `MachineLaws.LeaveReturns` | CPU_ARCHITECTURE.md:318-318 | LEAVERET is LEAVE and RET |
| `MachineLaws.StackPointer` | CPU_ARCHITECTURE.md:313-315 | SETSP undoes GETSP, and ADDSPs add up modulo 2^32 |
| `Monitor.OkMeansFine` | tools/vsim/randprog.py:3-6 | a good verdict at the end of a run means that each step before it made only permitted accesses, calls and returns |
| `Fetch.RunKeeps` | tools/vsim/randprog.py:3-6 | over an accepted run of any length, a byte outside the data window, the stack area and the devices keeps its value |
| `Fetch.RunFromMemory` | CPU_ARCHITECTURE.md:67-96 | with the code where no permitted access can write, a run that fetches and decodes from memory is the run of the code |
| `MemImage.LayOut` | tools/vsim/kasm.py:93-104 | the word loop collects, per doubleword, the word at the low half and the word at the high half |
| `MemImage.Overlay` | tools/vsim/kasm.py:105-107 | data joins the image keeping all code, and fails exactly when a data doubleword holds code |
| `MemImage.WriteSparse` | tools/vsim/kasm.py:92-113 | the sparse image holds every word and every datum at its place and nothing more; it fails exactly on overlap or when empty |
| `MemImage.WriteDense` | tools/vsim/kasm.py:115-132 | the boot image lists every doubleword from 0 with its length in front; data replaces code, every other word is at its place |
| `Kasm.Asm.Define` | tools/vsim/kasm.py:56-58 | a new label gets the address after everything emitted so far; a taken name is refused and changes nothing |
| `Kasm.Asm.Emit` | tools/vsim/kasm.py:60-65 | appends the instruction and returns its start address |
| `Kasm.Asm.Dword` | tools/vsim/kasm.py:73-75 | records the value modulo 2^64 at an 8-aligned address, refuses any other |
| `Kasm.Asm.Assemble` | tools/vsim/kasm.py:77-90 | the sweep with its two indices evaluates every word, deferred or not, at the start of the instruction it belongs to |
| `Kasm.Asm.WriteMem` | tools/vsim/kasm.py:92-113 | assembling and writing: each assembled word and each datum is where it belongs, with the exact failure condition |
| `Kasm.Asm.WriteBootMem` | tools/vsim/kasm.py:115-132 | the same for the dense image, with data over code |
| `Kasm.LastStart` | tools/vsim/kasm.py:80-89 | the greatest recorded start not above word k is the start of the instruction that emitted word k |
| `Kasm.SlotsAssemble` | tools/vsim/kasm.py:84-90 | words that each evaluate at their own instruction's start are the assembled program |
| `Listing.TargetReached` | tools/vsim/kasm.py:164-172 | every resolved jump, call, fused branch and LEAPC, forward or backward, leads to its label, the word-counted ones rounded down to a multiple of 4 |
| `Listing.JumpExact` | tools/vsim/kasm.py:239-270 | a relative jump reaches its target if and only if the target is a multiple of 4 bytes away |
| `Listing.AssembledIsEncoded` | tools/vsim/kasm.py:77-90 | assembling is resolving each instruction at its own address and encoding it, and fails exactly when resolving fails |
| `Listing.AssembleDisassemble` | tools/vsim/kasm.py:135-335 | reading an assembled program from its first word recovers exactly the emitted instructions, each resolved at its address |
| `Listing.DisassembleEncoded` | ISA_ENCODING_V2_MAP.md:17-55 | LEN always equals the words emitted: any legal instruction list survives encoding and linear decoding |
| `Listing.FormsAgree` | tools/vsim/kasm.py:207-230 | the short scaled and the long form of a load or store denote base + offset alike |
| `Listing.HalfInMemory` | tools/vsim/kasm.py:92-113 | fetching a word from memory loaded with an image gives the image's half doubleword |
| `RandRuns.RunBareLeaf` | tools/vsim/randprog.py:97-110 | a leaf without a frame returns to its own call having changed scratch registers and flags only |
| `RandRuns.RunFramedLeaf` | tools/vsim/randprog.py:104-107 | the same for ENTER with LEAVERET or LEAVE and RET: r15 and SP come back |
| `RandRuns.RunItem` | tools/vsim/randprog.py:40-91 | each straight-line choice, calls and push-pop pairs included, runs to its end in the window with r11, r12, r15 and SP kept |
| `RandRuns.RunLoop` | tools/vsim/randprog.py:128-139 | a loop entered with k in r11 passes its top exactly k times, with k, k-1, ..., 1 there, and leaves with 0 |
| `RandRuns.RunBlock` | tools/vsim/randprog.py:113-139 | every block, skips and loops included, runs to its end |
| `RandRuns.EveryProgramHalts` | tools/vsim/randprog.py:1-7 | from any registers and memory every program of the shape whose code ends below the data reaches HALT; on the way all accesses are permitted, all returns match their calls, SP ends where it began |
| `RandRuns.BlocksSize` | tools/vsim/randprog.py:113-139 | a block takes at most 21 words, so n blocks at most 21 n |
| `RandRuns.SmallFits` | tools/vsim/randprog.py:15-15 | with at most 776 blocks the code always ends below 0x10000 |
| `RandSym.ResolveProgram` | tools/vsim/randprog.py:97-141 | with the labels where the generator put them, the symbolic program resolves to the flat code whose runs are studied |
| `RandSym.ItemText` | tools/vsim/randprog.py:40-91 | each straight-line item as assembly text: the r13 forms, push, operation and pop, the call by its label |
| `RandSym.BlockText` | tools/vsim/randprog.py:113-139 | each block as assembly text: a fused branch or compare and jump over the body; r11 loaded, the body, r11 down and back to the label while it is not 0 |
| `RandSym.StartText` | tools/vsim/randprog.py:27-36 | the start and the leaf functions as assembly text: r1 to r10, r12 = 0x10000, r15 = 0, the timer unmasked when asked for; RET, LEAVERET or LEAVE and RET |
| `RandDraws.TurnClass` | tools/vsim/randprog.py:42-91 | for any stream the class of what a turn emits is fixed, both ways, by where its first fraction falls among the thresholds |
| `RandDraws.TurnRegisters` | tools/vsim/randprog.py:43-91 | destination and sources are the next three draws |
| `RandDraws.TurnOperation` | tools/vsim/randprog.py:44-84 | the operation is the draw after them, in the order of the choices |
| `RandDraws.TurnValues` | tools/vsim/randprog.py:47-77 | immediates, shift counts and predicates are the draw after that |
| `RandDraws.TurnModes` | tools/vsim/randprog.py:44-77 | W, SGN and F by their fractions, W never where the source excludes it |
| `RandDraws.TurnOffset` | tools/vsim/randprog.py:50-67 | the offset of an access is the drawn multiple of its size below span, through r13 for a quarter of the loads and three tenths of the stores |
| `RandDraws.TurnForms` | tools/vsim/randprog.py:50-67 | the long form is used exactly for the loads that ask for it and where the short one has no room |
| `RandDraws.TurnOthers` | tools/vsim/randprog.py:68-70 | the unaligned load, push-operation-pop and the call, each from its draws |
| `RandDraws.TurnsAdd` | tools/vsim/randprog.py:41-41 | n turns emit at least n items, and m more go on where they end |
| `RandDraws.TestDraws` | tools/vsim/randprog.py:116-123 | the test of a skip: registers, fused or flagged, predicate or one of the seventeen named conditions, each by its draw |
| `RandDraws.BlockClass` | tools/vsim/randprog.py:113-139 | the kind of a block is where its first fraction falls; its test, its rounds, its turns and its loop end are the draws that follow |
| `RandDraws.SimplesDraws` | tools/vsim/randprog.py:93-95 | straight_simple(n): n instructions of four draws each |
| `RandDraws.LeafDraws` | tools/vsim/randprog.py:100-110 | frame, number of instructions and kind of return of a leaf, each by its draw |
| `RandDraws.InitDraws` | tools/vsim/randprog.py:26-30 | the 64- or 32-bit first value of a register, by its draws |
| `RandDraws.ProgramClass` | tools/vsim/randprog.py:26-139 | every program loads r1 to r10 in this order, has three leaves and exactly n_blocks blocks, none of them empty |
| `RandGen.Rng.Below` | tools/vsim/randprog.py:18-18 | a draw below n is the next number of the stream modulo n |
| `RandGen.Rng.Random` | tools/vsim/randprog.py:27-27 | a fraction in [0, 1) made of the next number of the stream |
| `RandGen.EmitAccess` | tools/vsim/randprog.py:51-67 | the access emitted is the one its draws make, at most three words, aligned and in the window |
| `RandGen.EmitChoice` | tools/vsim/randprog.py:42-91 | one turn of `straight` emits exactly the items its draws make, of the shape and at most three words, and uses exactly these draws |
| `RandGen.EmitStraight` | tools/vsim/randprog.py:40-91 | n turns emit exactly the items of n turns of the stream, one after the other, and define no label |
| `RandGen.EmitSkip` | tools/vsim/randprog.py:117-127 | emits the skip its draws make; its fresh label is right behind its body |
| `RandGen.EmitLoop` | tools/vsim/randprog.py:128-139 | emits the loop its draws make; its fresh label is at its top, behind the counter's load |
| `RandGen.EmitLeaf` | tools/vsim/randprog.py:100-110 | emits the leaf its draws make at its label |
| `RandGen.EmitBlocks` | tools/vsim/randprog.py:113-139 | emits exactly the n_blocks blocks of the stream, each label where its jump expects it, earlier labels kept |
| `RandGen.Gen` | tools/vsim/randprog.py:15-141 | whatever the stream, n_blocks, irq flag and span, the assembler ends up holding exactly the program that the draws make, with all its labels in place and its accesses below max(span, 0x800) |
| `RandProg.GeneratedAssembles` | tools/vsim/randprog.py:15-141 | assembling a generated program whose code fits cannot fail; its words are legal and disassemble to the shape's code |
| `RandProg.GeneratedProgramsHalt` | tools/vsim/randprog.py:1-7 | loaded at 0x20 of any memory, the assembled words reach HALT when fetched and decoded from memory, SP is back, and no byte outside the program's window and 16 bytes of stack has changed, no code byte in particular |
| `RandProg.GenerateImage` | tools/vsim/run.py:253-256 | generating and writing the memory image of the program that the stream makes: when the code fits, as with up to 776 blocks, an image is written, and every machine that starts with it in memory halts with SP back and only its window and 16 bytes of stack changed |
| `Fib.Returns` | perf/m7/gen_probe.py:347-364 | fib returns after exactly Count(n) instructions with the n-th Fibonacci number mod 2^64 in M, memory from the entry SP up kept, the stack at most 16 (n - 1) bytes deeper |
| `Fib.CountClosed` | perf/m7/gen_probe.py:347-364 | the instruction count is 16 fib(n+1) - 12 |
| `Fib.ReturnsFromMemory` | perf/m7/gen_probe.py:347-364 | the same result with every instruction fetched from memory |
| `Cycles.Sattolo` | perf/m7/gen_probe.py:233-281 | for every choice of j's below their i's the shuffled identity is one single n-cycle |
| `Cycles.ShuffleIsOneCycle` | perf/m7/gen_probe.py:249-278 | shuffling the first entries of a permutation of i + 1 cycles, each ending at its own entry, joins them into one |
| `Cycles.Merge` | perf/m7/gen_probe.py:266-276 | one exchange with an earlier entry joins exactly two cycles |
| `Cycles.OneCycle` | perf/m7/gen_probe.py:233-281 | a permutation decomposed into one cycle comes back to its start only after visiting every entry |
| `Cycles.FullTurnSum` | perf/m7/gen_probe.py:283-300 | the entries met on a full turn of a single cycle add up to n(n-1)/2 |
| `Chase.InitRound` | perf/m7/gen_probe.py:240-245 | one round stores i at entry i and nothing else in the buffer |
| `Chase.Init` | perf/m7/gen_probe.py:240-245 | the first loop leaves the identity in the buffer |
| `Chase.XorRound` | perf/m7/gen_probe.py:253-256 | four instructions leave the exclusive or of the generator and its shift, cut to 32 bits |
| `Chase.Draw` | perf/m7/gen_probe.py:250-265 | G becomes the 32-bit xorshift (13, 17, 5) of G and D the new G modulo i, and no memory is touched |
| `Chase.Exchange` | perf/m7/gen_probe.py:266-278 | the twelve instructions exchange entries i and j in memory and count i down |
| `Chase.ShuffleTurn` | perf/m7/gen_probe.py:249-278 | one turn exchanges entry i with the entry its draw names |
| `Chase.Shuffle` | perf/m7/gen_probe.py:249-278 | the loop ends with the buffer shuffled by the draws of the xorshift stream from the generator's state on |
| `Chase.BuildPerm` | perf/m7/gen_probe.py:233-280 | build_perm returns with the buffer the identity shuffled by the xorshift stream from 0x2545F491, and that is one single n-cycle |
| `Chase.FollowCycle` | perf/m7/gen_probe.py:283-300 | k_chase takes 8 steps + 6 instructions; idx is the entry reached and acc the sum of the entries visited mod 2^64 |
| `Chase.FullTurn` | perf/m7/gen_probe.py:283-300 | after n steps idx is 0 and acc is n(n-1)/2 |
| `Measured.ClearPerf` | perf/m7/gen_probe.py:137-142 | clear_perf stores 1 to PERF_CTRL and returns with memory as it was |
| `Measured.MeasuredChase` | perf/m7/gen_probe.py:82-93 | CALL build_perm, CALL clear_perf, CALL k_chase: the buffer is that permutation, one single cycle, the counters were cleared once in between, idx is 0 and acc n(n-1)/2 |
| `Measured.MeasuredFromMemory` | perf/m7/gen_probe.py:82-93 | the same with every instruction fetched from memory |
| `Uart.Putc` | perf/m7/gen_probe.py:99-109 | for any transmitter that eventually is not busy, putc sends the low byte of A once and changes only B and C |
| `Uart.HexRound` | perf/m7/gen_probe.py:114-126 | one round sends the hexadecimal digit of E at the shift in F |
| `Uart.Puthex` | perf/m7/gen_probe.py:111-127 | puthex16 sends the sixteen digits of E, most significant first, and D, E, G, I, J survive |
| `Uart.Crlf` | perf/m7/gen_probe.py:129-135 | crlf sends CR and LF |
| `Dump.Snap` | perf/m7/gen_probe.py:151-155 | one turn stores the device's counter at its place in scratch |
| `Dump.Snapshot` | perf/m7/gen_probe.py:149-155 | all ten counters are in scratch before any byte is sent |
| `Dump.CounterAt` | perf/m7/gen_probe.py:40-58 | the ten counters by their addresses: cycles, instructions and the eight hazard counters in order |
| `Dump.PrintRest` | perf/m7/gen_probe.py:158-167 | the printing loop sends the remaining counters in order |
| `Dump.Dumps` | perf/m7/gen_probe.py:144-169 | dump returns with D kept, having sent one line with the id and the ten counters as they stood before the first byte |
| `ProbeParser.Parse` | perf/m7/parse_haz.py:20-27 | the loop collects the rows of exactly the lines that, stripped, are 176 hexadecimal digits |
| `ProbeParser.HexRoundTrip` | perf/m7/parse_haz.py:25-25 | reading n printed digits gives back any value below 16^n |
| `ProbeParser.DigitText` | perf/m7/parse_haz.py:20-25 | the sixteen digits printed are 0 to 9 and A to F; both cases are read as their value |
| `ProbeParser.FieldsParse` | perf/m7/parse_haz.py:25-25 | slicing by sixteen undoes printing, for any number of fields |
| `ProbeParser.FirstLine` | perf/m7/parse_haz.py:22-23 | splitting lines separates a printed line from the rest, for CR LF and LF endings |
| `ProbeParser.ParsePrinted` | perf/m7/parse_haz.py:20-27 | parsing the output of any number of dumps gives every id and counter back, in order |
| `ProbeParser.DumpParses` | perf/m7/gen_probe.py:144-169 | the bytes a run of dump sends parse to the id and the ten counter values |
| `ProbeParser.DumpParsesFromMemory` | perf/m7/gen_probe.py:144-169 | the same with every instruction fetched from memory |
| `Interrupts.FrameRoundTrip` | CPU_ARCHITECTURE.md:402-436 | IRET on the frame that entry pushed restores PC, flags, mask and the disable bit |
| `Interrupts.FrameLayout` | CPU_ARCHITECTURE.md:409-436 | every bit of the frame word: PC, C, less, S, V, C, Z, Z, four bits of mask from 39, the disable bit at 43 |
| `Interrupts.ResumeFlags` | CPU_ARCHITECTURE.md:409-436 | IRET takes Z, S, C, V, mask and disable bit from those bits of any frame |
| `Interrupts.EntryEffect` | CPU_ARCHITECTURE.md:402-408 | entry pushes that frame 8 bytes below SP, goes to the vector and masks the source it serves, no other |
| `Interrupts.SoftwareFrame` | tools/vsim/tests.py:248-265 | a frame built in software resumes disabled exactly when its bit 43 is set |
| `Interrupts.PushPop` | tools/board/hwprop_test.c:22-29 | pops in reverse order give back every pushed register, whatever ran in between, if the saved words and SP are intact |
| `Interrupts.Transparent` | tools/board/hwprop_test.c:18-30 | a whole interrupt, around any C function that keeps the calling convention where its stack and the counter are apart, changes nothing but the counter, up by one, and bytes below SP |
| `Interrupts.HandlerBenign` | tools/board/hwprop_test.c:18-30 | so the C handler is a benign interrupt wherever it strikes |
| `Interrupts.TimerConforms` | tools/board/hwprop_test.c:20-26 | CALL, load, increment, store, RET keeps the convention and counts once |
| `Interrupts.TimerRespects` | tools/board/hwprop_test.c:18-30 | hw_timer_isr around that body is benign for any vector, entry and counter address |
| `Interrupts.BenchTransparent` | tools/vsim/tb_vsim.sv:175-182 | the bench's nine-instruction handler counts once and changes nothing else |
| `Interrupts.BenchBenign` | tools/vsim/tb_vsim.sv:175-182 | so the bench's handler is benign too |
| `Interleave.SimStep` | tools/vsim/run.py:258-264 | one instruction that reads no byte an interrupt may have written acts alike on the interrupted and the undisturbed state |
| `Interleave.AnySchedule` | tools/vsim/run.py:258-264 | with interrupts at any set of instruction boundaries, a program that ignores the counter and stale stack bytes ends in the undisturbed registers, flags, PC, SP, device traffic and memory |
| `Interleave.Undisturbed` | CPU_ARCHITECTURE.md:384-401 | while interrupts stay disabled, a schedule changes nothing at all |
| `IrqRuns.AcceptedIsClean` | tools/vsim/run.py:258-264 | every accepted run reads no byte an interrupt may have written |
| `IrqRuns.AcceptedUnderInterrupts` | tools/vsim/run.py:258-264 | so it ends, under any schedule, as it ends alone, apart from counter and stack bytes |
| `IrqRuns.EveryTickCounted` | tools/vsim/run.py:258-264 | under any schedule the handler's counter goes up by one for each request that finds the undisturbed program with interrupts on: no tick is lost, none counts twice |
| `IrqRuns.WovenFromMemory` | tools/vsim/run.py:258-264 | with the code out of the way of the program's accesses and the handler's, an accepted run woven with any schedule is the same when every instruction is fetched from memory |
| `IrqRuns.AcceptedFromMemory` | tools/vsim/run.py:258-264 | the same for a run from an empty stack |
| `RandIrq.AnyInterrupts` | tools/vsim/run.py:253-264 | every generated program whose code fits halts under every interrupt schedule with the registers, PC and window of its undisturbed run, every tick counted |
| `RandIrq.AnyInterruptsFromMemory` | tools/vsim/run.py:253-264 | the same for the assembled words in memory, fetched and decoded at every step |
| `Crit.Always` | tools/vsim/tests.py:179-208 | from any reachable point under any schedule: ended with r9 = 0 after exactly the instructions left, or still on the invariant with that many fewer to go |
| `Crit.CriticalSections` | tools/vsim/tests.py:179-208 | the program with its 300 critical sections halts with r9 = 0 after 17109 instructions of its own, however the timer fires |
| `Crit.WindowClosed` | tools/vsim/tests.py:186-199 | in every run under every schedule, whenever it is at the end of a section the entry read, plus twelve, equals both exit reads |
| `Crit.StepOnward` | tools/vsim/tests.py:183-207 | every instruction keeps the invariant and brings the end one nearer |
| `Crit.TickKeeps` | tools/vsim/tests.py:201-203 | an interrupt, possible only where enabled, keeps the invariant |
| `Crit.CritFromMemory` | tools/vsim/tests.py:179-208 | from any reachable point under any schedule the program run from memory is the program run from its code |
| `Crit.SectionsFromMemory` | tools/vsim/tests.py:179-208 | so the machine that fetches from memory halts with r9 = 0 too |
| `Sections.AnySection` | ISA_ENCODING_V2_MAP.md:680-692 | from DI r through any n instructions of any kind, none of which turns interrupts on, to EI r with r intact: under every schedule the section runs undisturbed and the enable bit is what it was |
| `Sections.KeepsDisabled` | CPU_ARCHITECTURE.md:391-400 | only EI with an odd register and IRET to an enabled frame turn interrupts on |
| `Sections.AcrossFrame` | tools/vsim/tests.py:248-265 | a section that leaves through a hand-built frame with bit 43 set and IRET restores the enable bit under every schedule |
| `Sections.SectionRestores` | ISA_ENCODING_V2_MAP.md:680-692 | as program text: DI r, arithmetic, loads and stores that cannot trap, and further sections, none writing r, EI r: the enable bit is what it was, under any schedule |
| `Sections.PieceRestores` | tools/vsim/tests.py:156-176 | the same for every piece of such text, nested to any depth, and from a disabled state it is the undisturbed run |
| `Sections.AllRestore` | tools/vsim/tests.py:156-176 | the same for every list of pieces, with the registers saved outside kept |
| `Netboot.Bytes32RoundTrip` | tools/netboot/netboot.c:109-112 | rd_le32 reads back the four bytes send_ack writes |
| `NetbootWire.Le32IsLoad` | tools/netboot/netboot.c:109-112 | rd_le32 of bytes in memory is the machine's 32-bit load |
| `NetbootWire.ReplyBytes` | tools/netboot/netboot.c:185-193 | byte k of a reply is the status, or the checksum, divided by 2^(8k) modulo 256 |
| `NetbootWire.HeaderAccepted` | tools/netboot/netboot.c:200-223 | the bytes 4B 4E 45 54, a length and an entry, low bytes first, on a new connection in any state: exactly that length and entry, refused with status 2 exactly when it is 0 or 16 MiB and more |
| `NetbootWire.MagicRefused` | tools/netboot/netboot.c:206-211 | any twelve bytes that begin otherwise are refused with status 1 |
| `NetbootWire.ImageAccepted` | tools/netboot/netboot.c:216-249 | that header and its image: the image is staged and ready, the reply is 0 and its checksum, low byte first |
| `NetbootWire.ChecksumAdds` | tools/netboot/netboot.c:115-123 | the checksum is the sum of the machine's 32-bit loads over the staged image, modulo 2^32 |
| `Netboot.OneByteDetected` | tools/netboot/netboot.c:114-123 | a single wrong byte changes the checksum if and only if it lies in a whole word, not in the last one to three bytes |
| `Netboot.FeedConcat` | tools/netboot/netboot.c:195-254 | receiving two segments is receiving their concatenation, from any state |
| `Netboot.CutAnywhere` | tools/netboot/netboot.c:195-254 | two ways of cutting one stream give the same phase, header, staged bytes, replies and ready flag |
| `Netboot.FeedOutcome` | tools/netboot/netboot.c:195-254 | on a connection accepted in any state, the outcome for any stream: staged is the stream after 12 bytes up to the announced length, refusals and the checksum reply as announced |
| `Netboot.OffsetBound` | tools/netboot/netboot.c:216-232 | in every history of connections and bytes the offset stays below the length of the image being received and below 16 MiB, and the staging area starts with what was received |
| `Netboot.LastImage` | tools/netboot/netboot.c:232-249 | an image is ready exactly when the history has a prefix that ends with an acknowledgement; after the longest such prefix no connection carries a whole image |
| `Netboot.LaunchExact` | tools/netboot/netboot.c:276-284 | after an acknowledged image and any connections without a whole image, entry, length and staging are that image's if and only if nothing was connected since, or the last connection repeats length and entry and every image byte sent again was sent last with its own value |
| `Netboot.LaunchIsLastImage` | tools/netboot/netboot.c:342-352 | the same for every history from the start and the image acknowledged last |
| `Netboot.QuietLaunch` | tools/netboot/netboot.c:342-352 | with no connection after the acknowledgement the launch is right, whatever bytes still come |
| `Netboot.LostImage` | tools/netboot/netboot.c:207-220 | a connection that announces any refused length, 0 or 16 MiB and more, leaves the loader ready with that length, not the image's; 0xFFFFFFFF is rounded up to 0 and 0xFFFFFFF8 to itself |
| `Netboot.TornImage` | tools/netboot/netboot.c:224-231 | a connection that repeats the header and breaks off leaves its bytes over the start of the image, launched unless they are the same |
| `Netboot.Receiver.constructor` | tools/netboot/netboot.c:100-107 | the receive state starts fresh, the staging area holding anything |
| `Netboot.Receiver.ImageChecksum` | tools/netboot/netboot.c:114-123 | the loop sums the little-endian words of the staged image mod 2^32 |
| `Netboot.Receiver.SendAck` | tools/netboot/netboot.c:185-193 | appends status and checksum, little-endian, to the replies |
| `Netboot.Receiver.TakeHeader` | tools/netboot/netboot.c:200-223 | takes what the header lacks and leaves the state the byte-wise specification gives |
| `Netboot.Receiver.JudgeHeader` | tools/netboot/netboot.c:207-223 | a complete header is accepted or refused with its status |
| `Netboot.Receiver.CopyIn` | tools/netboot/netboot.c:224-230 | the copy puts the bytes behind those staged and leaves the rest of the area |
| `Netboot.Receiver.AckImage` | tools/netboot/netboot.c:232-249 | a complete image is acknowledged with its checksum and marked ready |
| `Netboot.Receiver.TakeImage` | tools/netboot/netboot.c:224-249 | takes what the image lacks: receive state and whole staging area as the byte-wise history says |
| `Netboot.Receiver.Consume` | tools/netboot/netboot.c:195-254 | the chunk-wise loop over buffers equals the history of the single bytes, staging area included |
| `Netboot.Receiver.Receive` | tools/netboot/netboot.c:256-274 | a chain of buffers equals its bytes in one piece |
| `Netboot.Receiver.Accept` | tools/netboot/netboot.c:276-284 | a new connection resets phase, header count, offset and length and nothing else, the staging area in particular |
| `Trampoline.Round` | tools/netboot/netboot.c:139-147 | one round copies one doubleword and advances source, destination and count |
| `Trampoline.Loop` | tools/netboot/netboot.c:139-147 | the loop copies all remaining doublewords in 8 (n - k) + 2 instructions |
| `Trampoline.Launch` | tools/netboot/netboot.c:134-156 | the trampoline ends after 8 n + 10 instructions at the entry with SP = 0x08000000, the image at 0, the instruction cache invalidated once, staging and trampoline as they were |
| `Trampoline.Boot` | tools/netboot/netboot.c:134-156 | with an image of any accepted length in staging and the trampoline's words in place, the machine, fetching from memory, arrives at the entry with memory[0..len) the image |
| `Trampoline.EmitTrampoline` | tools/netboot/netboot.c:160-162 | the word loop copies the trampoline and changes nothing else |
| `Trampoline.LaunchImage` | tools/netboot/netboot.c:159-168 | from the loader's state and staging area through that copy and the rounded length to the running image |
| `Trampoline.BootLastImage` | tools/netboot/netboot.c:342-352 | for every history whose later connections are harmless, the image acknowledged last is what runs, at its own entry |
| `Trampoline.Overrun` | tools/netboot/netboot.c:139-147 | with a length that rounds to more than 0x7FF0000 the machine, still fetching the intact trampoline, reaches it with its stores: doublewords are left, all bytes below it are copied, its own first doubleword is overwritten |
| `Screen.AssignRow` | tools/vnc_viewer.py:129-143 | overwriting part of a row changes exactly those pixels |
| `Screen.PixelBytes` | tools/vnc_viewer.py:129-143 | pixel (x, y) is the bytes from (y * width + x) * bpp on |
| `Screen.FillPixel` | tools/vnc_viewer.py:129-133 | filling a box on the screen sets every pixel in it and no other |
| `Screen.RawPixel` | tools/vnc_viewer.py:135-143 | raw data lands pixel by pixel in its box and nowhere else |
| `Screen.WidePixel` | tools/vnc_viewer.py:136-139 | the one-slice shortcut for full-width boxes means the same as the row loop |
| `Screen.FillSize` | tools/vnc_viewer.py:129-133 | the framebuffer keeps its size if and only if the box is empty or its last row ends inside it, and otherwise grows |
| `Screen.FillExact` | tools/vnc_viewer.py:129-133 | for every full framebuffer and colour a fill keeps the size and every pixel outside the box if and only if the box is empty or on the screen |
| `Screen.FillWraps` | tools/vnc_viewer.py:129-133 | a box over the right edge, given concretely, paints the start of the next row |
| `Hextile.Partition` | tools/vnc_viewer.py:149-152 | every pixel of the rectangle is in exactly one tile, every other in none |
| `Hextile.PaintPixel` | tools/vnc_viewer.py:153-174 | in a tile a pixel takes the last subrectangle covering it, else the background; outside nothing changes |
| `Hextile.RectanglePixel` | tools/vnc_viewer.py:145-175 | every pixel of a decoded rectangle shows what its own tile says, every other pixel is untouched, the size is kept |
| `Hextile.WorkIs` | tools/vnc_viewer.py:145-175 | drawing while reading equals parsing all tiles, with colours inherited, and then painting them |
| `Hextile.ParsedSized` | tools/vnc_viewer.py:153-169 | a parsed tile has full-size colours and data and used between one byte and all bytes |
| `HextileWire.RecordParses` | tools/vnc_viewer.py:170-174 | for all x, y < 16, sizes 1 to 16 and colours, the record colour, 16 x + y, 16 (w - 1) + (h - 1) is the subrectangle at x, y of size w by h in that colour |
| `HextileWire.RecordsParse` | tools/vnc_viewer.py:165-174 | any number of records is those subrectangles in order |
| `HextileWire.TileParses` | tools/vnc_viewer.py:153-169 | a tile written out with mask weights 1, 2, 4, 8, 16, background before foreground before subrectangles, parses to that tile with its colours and byte count |
| `HextileWire.StreamParses` | tools/vnc_viewer.py:145-175 | any number of tiles written one after the other parses to those tiles, colours inherited |
| `HextileWire.TilesInOrder` | tools/vnc_viewer.py:149-152 | the tiles come in reading order on the grid of 16 by 16, cut off at the right and lower edge |
| `HextileWire.DrawWritten` | tools/vnc_viewer.py:145-175 | drawing the stream of any written tiles shows, pixel by pixel, those tiles, and takes exactly its bytes |
| `HextileWire.RawRectangle` | tools/vnc_viewer.py:188-193 | a rectangle header, high bytes first, with encoding 0 and its pixels draws those pixels there |
| `HextileWire.HextileRectangle` | tools/vnc_viewer.py:188-195 | the same with encoding 5 and written tiles |
| `HextileWire.ColourWritten` | tools/vnc_viewer.py:204-212 | in a colour map message written high bytes first, entry i is the high bytes of the i-th colour |
| `Viewer.RfbClient.Recv` | tools/vnc_viewer.py:40-50 | exactly n bytes, in order, or an error if and only if the stream ends first |
| `Viewer.RfbClient.Fill` | tools/vnc_viewer.py:129-133 | the row loop equals the fill whose pixels are described |
| `Viewer.RfbClient.RawRect` | tools/vnc_viewer.py:135-143 | both branches equal the row-wise copy |
| `Viewer.RfbClient.DrawSubs` | tools/vnc_viewer.py:170-174 | the record loop paints the subrectangles in order |
| `Viewer.RfbClient.ReadSubs` | tools/vnc_viewer.py:165-174 | count and records are read exactly, or an error if and only if they are cut short |
| `Viewer.RfbClient.DrawPainted` | tools/vnc_viewer.py:160-174 | a tile with background, foreground and subrectangles equals parse, then paint, and returns the colours handed on |
| `Viewer.RfbClient.DrawTile` | tools/vnc_viewer.py:153-174 | any tile equals parse, then paint, and counts the bytes it used |
| `Viewer.RfbClient.DrawRow` | tools/vnc_viewer.py:151-174 | a row of tiles takes the decoder to the same place as its description |
| `Viewer.RfbClient.DrawHextile` | tools/vnc_viewer.py:145-175 | the returned count is the bytes consumed, the framebuffer that of the parsed tiles painted, an error if and only if the stream is too short |
| `Viewer.RfbClient.DrawRectangle` | tools/vnc_viewer.py:186-196 | header and pixels in either encoding, an unknown encoding refused |
| `Viewer.RfbClient.Update` | tools/vnc_viewer.py:183-203 | only a complete update hands a frame over, and counts it and every byte of the message |
| `Viewer.RfbClient.ColourMap` | tools/vnc_viewer.py:204-212 | entries in range take the high bytes, entries past 255 are read and ignored, all others are kept |
| `Sha.GapLeast` | tools/vsim/crypto_kat.py:134-138 | the zeros are the fewest that make the length 56 modulo 64 |
| `Sha.PaddedTail` | tools/vsim/crypto_kat.py:134-138 | padding with prefix length 64 is exactly the tail of padding one block more |
| `Sha.PadRoundTrip` | tools/vsim/crypto_kat.py:134-138 | the message can be read back from its padding |
| `CryptoBytes.PaddedByte` | tools/vsim/crypto_kat.py:134-138 | every byte of the padding: message, 0x80, zeros, then the bit length with its high byte first |
| `Sha.ChainSplit` | tools/vsim/crypto_kat.py:149-155 | compressing a stream is compressing its halves one after the other |
| `Sha.Written` | tools/vsim/crypto_kat.py:139-140 | write_block puts the block, byte for byte, into the block registers and changes nothing else |
| `Sha.Saved` | tools/vsim/crypto_kat.py:161-161 | four SAVEs put the digest into their four slots and touch no other |
| `Sha.Replayed` | tools/vsim/crypto_kat.py:166-166 | four REPLAYs put a saved digest into the staging registers |
| `Sha.Controlled` | MMIO_MAP.md:998-1030 | what INIT, START, RESTORE and RESTORE with START do to state and DONE |
| `Sha.Feeds` | tools/vsim/crypto_kat.py:152-154 | write a block and START: the state is compressed with that block |
| `Sha.Resumes` | tools/vsim/crypto_kat.py:166-172 | REPLAY and RESTORE bring a saved state back |
| `Sha.ResumeFeeds` | tools/vsim/crypto_kat.py:166-169 | RESTORE with START in one write restores first and then compresses |
| `Sha.ReplayWrites` | tools/vsim/crypto_kat.py:166-174 | REPLAY, a block, RESTORE and START as separate writes do the same |
| `Contexts.EveryDigest` | tools/vsim/crypto_kat.py:157-177 | any number of messages in any legal interleaving of blocks, saves and restores, with RESTORE separate before or after the block is written or combined with START: each digest is the one-shot hash |
| `Contexts.AllActed` | tools/vsim/crypto_kat.py:157-177 | every script keeps each context's slots at the state its own blocks give |
| `Contexts.PartialNext` | tools/vsim/crypto_kat.py:150-154 | feeding the next block takes a partial hash one block on |
| `Hmac.FromMidstate` | tools/vsim/crypto_kat.py:199-219 | going on from a key block's midstate gives the whole hash of key block and message |
| `Hmac.MacFromMidstates` | tools/vsim/crypto_kat.py:197-224 | HMAC from the two saved midstates is HMAC by definition, for keys up to 64 bytes and all messages |
| `CryptoBytes.MacIs` | tools/vsim/crypto_kat.py:197-224 | HMAC is the hash of the key padded and xored with 0x5C and of the hash of the key xored with 0x36 and the message |
| `CryptoBytes.XorByteBits` | tools/vsim/crypto_kat.py:199-210 | exclusive or of bytes, bit by bit |
| `Hmac.KeySet` | tools/vsim/crypto_kat.py:206-210 | setkey leaves both midstates in the key's eight slots and every other slot as it was |
| `Hmac.KeysSet` | tools/vsim/crypto_kat.py:205-210 | from any state, setkey for all keys in turn leaves every key's midstates in its slots |
| `Hmac.MacOnEngine` | tools/vsim/crypto_kat.py:211-224 | the op script yields the inner hash, then the HMAC, with all slots kept |
| `Hmac.EveryMac` | tools/vsim/crypto_kat.py:211-224 | with the keys in place, any sequence of requests under any of them: each answer is the HMAC of its own key and message |
| `Hmac.KeysThenMacs` | tools/vsim/crypto_kat.py:205-224 | the whole script, set-up and requests, for any keys up to 64 bytes and any requests |
| `Hmac.OneBlockIsPadded` | crypto_test.c:93-103 | the single block is the padding if and only if the message has at most 55 bytes |
| `Hmac.BuildBlock` | crypto_test.c:96-103 | the byte loops leave message, 0x80, zeros and big-endian bit length in the block |
| `Hmac.OneBlockHash` | crypto_test.c:95-113 | sha256_one_block is the hash of messages of at most 55 bytes |
| `Hmac.CHmacIsMac` | crypto_test.c:117-171 | hmac_sha256 on the wrapper's key, KEY_LOAD, START and FINAL registers is HMAC for keys up to 32 and messages up to 55 bytes, whatever the registers held before |
| `Counter.AddsN` | tools/vsim/crypto_kat.py:59-63 | N increments add N modulo 2^128 to the big-endian block |
| `Counter.AddsN32` | tools/vsim/crypto_kat.py:59-62 | with INC32 they add N modulo 2^32 to the last four bytes and keep the first twelve |
| `CryptoBytes.BeByte` | tools/vsim/crypto_kat.py:59-63 | byte k of an n-byte big-endian number has weight 256^(n - 1 - k) |
| `CryptoBytes.LeIsLoad` | tools/board/crypto_kat_hw.c:72-85 | a word of the buffer is the machine's little-endian load |
| `Counter.CtrTwice` | tools/vsim/crypto_kat.py:66-83 | enciphering twice from one counter is the identity |
| `Counter.CtrAt` | tools/vsim/crypto_kat.py:74-81 | block i is the plaintext exclusive-or the cipher of the counter i steps on |
| `Counter.Lockstep` | tools/board/crypto_kat_hw.c:82-84 | one turn on the two byte-swapped words is one increment of the 16-byte block, through every carry |
| `Counter.XorWords` | tools/board/crypto_kat_hw.c:80-81 | exclusive-or by words is exclusive-or by bytes |
| `Counter.SoftwareCtr` | tools/board/crypto_kat_hw.c:72-85 | the loop leaves the buffer CTR-enciphered from zero and the words at the counter after all blocks |
| `Counter.CounterCheck` | tools/board/crypto_kat_hw.c:87-88 | from zero, n < 65536 blocks leave the byte-swapped n in the top 16 bits of CTR1 |
| `Conditions.FlagsOfDifference` | FLAG_UNIFICATION_CHANGES.md:25-37 | after a subtract Z is equality, C the borrow and S xor V signed less, for all operands |
| `Conditions.ConditionNumbers` | FLAG_UNIFICATION_CHANGES.md:39-55 | after a compare, what each of the ten condition codes, by number and with its inversion, means for the operands |
| `Conditions.SignedReading` | CPU_ARCHITECTURE.md:153-158 | the signed reading of a word is the one number in range congruent to it |
| `Conditions.JumpTaken` | FLAG_UNIFICATION_CHANGES.md:39-55 | each of the ten relations' jump code, inverses included, is taken exactly when the relation holds |
| `Conditions.TestTrue` | tools/vsim/kasm.py:15-23 | the predicate codes of SETcc and fused branches decide the same relations |
| `Conditions.ShiftedOrder` | ISA_V3_IMPL.md:35-37 | shifting both operands left 32 keeps equality and both orders of the low halves |
| `Conditions.WideJumpTaken` | tools/board/gen_hwprop.py:80-87 | after a W compare every jump sees the 32-bit relation |
| `Conditions.WideTestTrue` | tools/board/gen_hwprop.py:52-56 | a W SETcc decides the 32-bit relation |
| `Conditions.FusedWide` | tools/board/gen_hwprop.py:52-56 | the six fused W predicates agree with the 32-bit relations and with comparing the shifted operands |
| `Conditions.CompareJumps` | FLAG_UNIFICATION_CHANGES.md:39-55 | CMP, W or not, and the jump behind it, as executed: the target exactly when the relation holds between the registers, else the next instruction, registers and memory untouched |
| `Conditions.SetsTruth` | tools/vsim/kasm.py:187-189 | SETcc, W or not, as executed, leaves 1 when the relation holds between the registers and 0 when not, and no flag changed |
| `Conditions.SubCompares` | CPU_ARCHITECTURE.md:160-183 | SUB sets the flags of CMP |
| `Conditions.SubtractWide` | FLAG_UNIFICATION_CHANGES.md:34-37 | SUB then SBC subtract 128-bit numbers, with C the borrow and S xor V the signed order of the whole |
| `Conditions.AddWide` | CPU_ARCHITECTURE.md:198-222 | ADD then ADC add 128-bit numbers, with C the carry out |
| `Conditions.SubtractRegisters` | FLAG_UNIFICATION_CHANGES.md:34-37 | SUB and SBC as executed on four registers leave the 128-bit difference and its order |
| `Conditions.AddRegisters` | CPU_ARCHITECTURE.md:198-222 | ADD and ADC as executed on four registers leave the 128-bit sum and its carry |

## Left out

Narrower than the source:

- RandGen.Gen: requires 8 <= span <= 0xEFFF0000. Below 8 the 64-bit offsets have an empty range and Python raises; above it the window would run into the device addresses.
- RandDraws.ProgramClass: one number of the stream per call of random(), choice(), randrange() or getrandbits(), taken modulo what is asked for; how the Mersenne Twister fills the stream from a seed is not modelled.
- RandProg.GeneratedProgramsHalt: the code must end below the data at 0x10000; a longer program can overwrite itself. The default of 40 blocks and anything up to 776 fits.
- RandIrq.AnyInterrupts: the handler must fit below the stack and off the program's window, as the bench's does; a timer that starves the main program is a schedule with too few turns of its own.
- Hextile.RectanglePixel: for rectangles on the screen and subrectangles inside their tiles; outside, `Screen.FillExact` and `Screen.FillSize` say exactly what a fill can do.
- Interrupts.Transparent: the compiled body of `hw_timer_isr_c` is any that keeps the convention; `Interrupts.TimerRespects` has one.
- Sections.SectionRestores: text without branches, stack accesses and 16- and 32-bit accesses that may trap; `Sections.AnySection` has any code.
- Trampoline.LaunchImage: the staging array of the receiver and the bytes at STAGING_BASE are taken to be the same, as the C pointer has it.
- Sha.PadRoundTrip: messages of 2^61 bytes and more have no 64-bit length; `Pad` returns None where Python raises.
- Contexts.EveryDigest: slots are unbounded, while the board's replayer has 64; BUSY and DONE polling is one atomic wait.
- Kasm.Asm.Define: label names are a letter and a number, as the generator makes them; other strings are not modelled.

Not modelled:

- The RTL: pipeline, caches, branch prediction, posted stores, timing. The machine is the instruction set's.
- Instruction forms of the encoding map that the modelled programs do not use; `Decode` reports them as illegal: MIN, MAX, MINU and MAXU; SETR and LEAPC with an 8-bit immediate, or with an ignored field set; boolean compares with an immediate or with SGN set, and zero-extended compares; RCL and RCR; BSET, BCLR, BTGL, BTST, BEXTR and BDEP; NEG, NOT, ABS, SEXT, ZEXT, BSWAP, BITREV, POPCNT, CLZ, CTZ, GETF and COPY with flags; DIV, MOD and the high product with an immediate; two-word relative branches; PUSHV64; RESET and DELAY; the LCD instructions of class C.
- How klausscc and LLVM assemble the probe and trampoline text: the model fixes one legal choice of forms (long immediates and absolute jumps, short relative jumps in the trampoline).
- MEMGET32 across the end of the 32-bit address space, and unaligned 64-bit accesses other than as their aligned doubleword.
- A MUL with W and SGN = 0, which the encoding tables leave open, is taken as legal because the generator emits it.
- The carry of a rotate: the architecture text gives it for rotates by one only, and the model moves the bit into C for an embedded count of one and leaves C alone otherwise.
- WAIT waking while disabled, INT_PENDING, interrupt sources other than the timer, and nested interrupts.
- `diei_values`, the `ras_*` and `_br_cases` programs: single concrete runs, covered by the general statements on DI, EI, calls and conditions.
- The negative control of the critical sections, with NOP for DI and EI.
- k_alu, k_mem, k_branch and k_muldiv: straight loops without results.
- lwIP, sockets, the throughput printout and the time of the flush before the launch; replies are one stream, not one per connection.
- The viewer's handshake, Bell, ServerCutText, window and threads.
- AES and SHA-256 rounds, GHASH and the random source; INIT with START in one write, which the register map does not define; the ZERO and INIT-with-RESTORE readback checks, which restate `Sha.Control`.
- Ethernet MDIO, performance counters, image conversion scripts and board set-up.
