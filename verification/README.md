# A verified model of the rv32jit translation pipeline and block chaining

rv32jit runs RV32I guest code on x86-64. It translates a range of guest instructions to a small
intermediate representation (QIR), fits the operands to the target, allocates registers block by
block, emits two-address machine operations, and chains the resulting blocks at run time through
patched branch slots and an indirect-branch cache. The interpreter handlers in the repository
define what guest instructions mean.

The project models every one of these stages and composes them into one statement
(`ChainRuns.RunFollowsInterpreter`): in every reachable state of the running system, however blocks
were compiled, linked, cached and chained, the guest has taken some number of steps k and is exactly
where the interpreter is after k steps, with the same registers, memory and event history, unless one
of those k steps already departed from the interpreter. There are two ways to depart, both defects of
the translator described below, and `Relaxed.SameStepIff` says exactly when a step does. What the
guest does instead is known too: `ChainRuns.RunFollowsRelaxed` holds in every reachable state without
any exemption, against the interpreter with those two defects built in.

## How the parts fit

- `Words`, `WordOrder`: 32-bit words, arithmetic, conditions, memory bytes, the unsigned order.
  `WordValues`, `WordLaws`, `MemLaws`: what each of these computes as an integer, so that the
  operations which interpreter, intermediate code and emitted code share are themselves fixed.
- `Qir`, `Machine`, `SelForm`: QIR, its semantics before and after register allocation, and the
  well-formedness conditions the passes hand to each other. Every load, store and trapping helper
  call records an event that holds the whole CPU state in memory at that moment, so equal event
  sequences mean precise state. Physical code reaches the CPU state, guest memory and the frame only
  through STATE, MEMBASE and SP, and meets something arbitrary when one of them has been moved.
- `Relaxed`: the steps translated code takes, which are the interpreter's without alignment checks and
  with the defective load, and when the two agree.
- `Guest`: instruction fields, decoding and the interpreter. `GuestLaws`: a second definition of every
  handler, on integers, that the interpreter is proved to meet. `Assembler`: the encodings of the ISA as
  an independent reference for the decoder.
- `TransSteps`, `TransInsns`, `TransEnds`, `Translate`, `TransRuns`: the translator as a class, and
  the proof that a translated region refines the interpreter.
- `SelSteps`, `Select`: operand selection. `AllocView`, `AllocMoves`, `AllocSteps`, `RegAlloc`: the
  register allocator with its location state machine, and the simulation between virtual and
  physical code. `Emit`, `EmitRuns`: emission, block layout and the linear machine.
- `Pipeline`: the passes in sequence. `TCache`, `Ranges`: the translation cache and the range that
  one compilation covers. `Chain`, `ChainRuns`, `Dispatcher`, `Runtime`: dispatch, linking and
  indirect branches as a transition system, its safety, its refinement of the interpreter and of a
  dispatcher without caches, and the run-time code that takes its steps.
- `SlotBytes`: the bytes of the branch slots under the table of patched slots.
- `NullRun`: a run of the transition system into the null jump.
- `BranchSlots`, `ILists`, `Powers`, `BitField`, `BitSeq`, `Operands`: patchable branch slots, the
  intrusive list, the bit-field codec, immediates and packed operands.

## Where the code falls short of its promise

- A load to x0 with a zero offset names the base register as its destination
  (`src/guest/rv32_qir.cpp:184`) and overwrites it, or has a constant as destination if the base is
  x0 too, which the emitter asserts against. `TransInsns.LoadMatchesAlwaysIff` shows that loads are
  translated correctly exactly when they are not of this form; `TransInsns.BadLoadFails` gives the
  failing state.
- Translated jumps do not check target alignment (`src/guest/rv32_qir.cpp:268` and `276`), while the
  interpreter traps. `TransEnds.JalAgreesIff`, `TransEnds.JalrAgreesIff` and
  `TransEnds.BranchAgreesIff` state exactly which jumps agree from every state, with a failing state
  for the others.
- The decoder does not look at funct7 of slli, sll, slt, sltu, xor, or and and
  (`src/guest/rv32_decode.h:88` and `113-120`). `Assembler.DecodeIff` states exactly what it accepts,
  and `Assembler.UncheckedWord` gives a word it accepts that no RV32I assembler produces.
- A range that starts at address 0 or above 0xfffff000 has an end of zero, which the translator
  asserts against; `TCache.TranslationCache.GetCompilationIPRange` states exactly when. A range that
  starts on a page boundary ends there, so its block holds one instruction.
- The inlined probe of the indirect-branch cache jumps through a null pointer for target zero when
  the entry is empty; `TCache.ProbeZero` states exactly when, and `NullRun.RunsIntoNull` is a run that
  does it.

## Model

| member | source | states |
|---|---|---|
| `Guest.X0StaysZero` | src/guest/rv32_interp.cpp:25-56 | x0 reads zero after every handler that starts with it zero |
| `Guest.IterateAppend` | src/guest/rv32_interp.cpp:25-56 | j + k interpreter steps are j steps followed by k, unless the first j trap |
| `GuestLaws.HandlerExecutes` | src/guest/rv32_interp.cpp:58-181 | for every instruction and state the handler gives the numbers of an independent definition: the destination from the values of the sources, the next address, the trap numbers 1 to 4, the bytes stored and the access made, with every other register and byte unchanged |
| `GuestLaws.HandlerResult` | src/guest/rv32_interp.cpp:82-169 | the number written to the destination: sums and differences modulo 2^32, bitwise operations digit by digit, shifts as products and quotients of powers of two, comparisons on signed or unsigned values, loads as the number the bytes spell |
| `GuestLaws.HandlerTarget` | src/guest/rv32_interp.cpp:58-118 | the next address as a number, for jumps, taken and untaken branches and everything else |
| `GuestLaws.HandlerTrap` | src/guest/rv32_interp.cpp:66-67 | which of the traps 1 to 4 is raised, decided on values and offsets |
| `GuestLaws.HandlerStored` | src/guest/rv32_interp.cpp:76-80 | byte k of the access becomes digit k of the register to base 256; no other byte changes |
| `GuestLaws.NumWrap` | src/guest/rv32_interp.cpp:86-88 | an immediate becomes the word of its value modulo 2^32 |
| `WordLaws.HoldsCompares` | src/ir/qir.h:468-494 | the ten conditions compare the signed or unsigned values |
| `WordLaws.AddNum` | src/guest/rv32_interp.cpp:152 | the sum of the values modulo 2^32 |
| `WordLaws.SubNum` | src/guest/rv32_interp.cpp:151 | the difference of the values modulo 2^32 |
| `WordLaws.SubPlus` | src/guest/rv32_interp.cpp:151 | a difference plus what was taken away is the first word |
| `WordLaws.BitwiseBits` | src/guest/rv32_interp.cpp:159-169 | and, or and exclusive or act on every bit |
| `WordLaws.ShiftNum` | src/guest/rv32_interp.cpp:153-168 | left shifts multiply modulo 2^32, logical right shifts divide the value, arithmetic ones divide the signed value rounding down, all by a power of two from the low five bits |
| `WordLaws.NumInjective` | src/guest/rv32_interp.cpp:82-88 | words with the same value are the same |
| `WordLaws.LeNum` | src/tcache.cpp:69-75 | the unsigned order is the order of the values |
| `MemLaws.LoadNum` | src/guest/rv32_interp.cpp:70-74 | a load yields the number its bytes spell, least significant first, unsigned or in two's complement |
| `MemLaws.LoadStore` | src/guest/rv32_interp.cpp:70-80 | a load after a store of the same width at the same address yields the stored value, cut to the width and extended |
| `MemLaws.StoreByteAt` | src/guest/rv32_interp.cpp:76-80 | a store puts byte k of the word k bytes on |
| `MemLaws.StoreElsewhere` | src/guest/rv32_interp.cpp:76-80 | a store changes no other address |
| `MemLaws.ByteOfNum` | src/guest/rv32_interp.cpp:76-80 | byte k of a word is digit k of its value to base 256 |
| `MemLaws.TruncNum` | src/codegen/emit.cpp:43-55 | an operand of a narrow type is the value modulo its width |
| `MemLaws.MergeNum` | src/codegen/emit.cpp:43-55 | writing a narrow register replaces the low part of its value and keeps the rest |
| `Assembler.ParseAssembled` | src/guest/rv32_decode.h:11-159 | for every RV32I operation and all operands its format can hold, decoding the word assembled from the encoding tables of the RISC-V Unprivileged ISA gives back the operation, its registers and its immediate |
| `Assembler.AssembledImmediate` | src/guest/rv32_insn.h:55-113 | the immediate of every format survives assembling and decoding |
| `Assembler.DecodeIff` | src/guest/rv32_decode.h:11-159 | the decoder answers with an operation if and only if the word has its opcode, funct3 and, for the operations where the decoder looks at them, funct7 or rd, rs1 and funct12 |
| `Assembler.IllegalIff` | src/guest/rv32_decode.h:11-159 | a word is illegal if and only if it has the checked fields of no RV32I operation |
| `Assembler.UncheckedWord` | src/guest/rv32_decode.h:88-89 | a word with funct7 = 1 is taken for slli though no assembled word equals it |
| `TransSteps.FoldPreserves` | src/ir/qir_opt.cpp:15-45 | replacing an add by its folded form changes neither state, events nor control, from every state |
| `TransSteps.FoldWellFormed` | src/ir/qir_opt.cpp:15-45 | folding keeps a well-formed instruction well formed |
| `TransSteps.FoldDone` | src/ir/qir_opt.cpp:15-45 | folding leaves nothing to fold: an add that remains has a register first and no zero last |
| `TransSteps.PureAlwaysMatches` | src/guest/rv32_qir.cpp:226-265 | every arithmetic, setcc, lui and auipc sequence with a destination does what its handler does from every state |
| `TransInsns.LoadMatchesIff` | src/guest/rv32_qir.cpp:172-186 | in a given state a translated load agrees with the handler if and only if it is not a load to x0 with zero offset from a base register whose value differs from what is loaded |
| `TransInsns.LoadMatchesAlwaysIff` | src/guest/rv32_qir.cpp:172-186 | a load does what its handler does from every state, into a register, if and only if it is not a load to x0 with zero offset |
| `TransInsns.LoadTranslated` | src/guest/rv32_qir.cpp:172-186 | every load, defective ones included, takes the relaxed step |
| `TransInsns.BadLoadFails` | src/guest/rv32_qir.cpp:181-185 | the concrete state in which the defective load goes wrong |
| `TransInsns.StoreAlwaysMatches` | src/guest/rv32_qir.cpp:188-198 | stores write the same bytes with precise state in the event |
| `TransInsns.FenceAlwaysMatches` | src/guest/rv32_qir.cpp:200-203 | fences change nothing but the saved ip |
| `TransEnds.JalMatches` | src/guest/rv32_qir.cpp:266-273 | a jal block reaches the state and address of the handler if and only if the handler does not trap on alignment |
| `TransEnds.JalAgreesIff` | src/guest/rv32_qir.cpp:266-273 | jal agrees from every state if and only if its offset is a multiple of four, and otherwise differs with all registers zero |
| `TransEnds.JalByTwo` | src/guest/rv32_qir.cpp:268-272 | the jump by two that translated code makes and the handler refuses |
| `TransEnds.JalrMatches` | src/guest/rv32_qir.cpp:274-287 | a jalr block, including rd equal to rs1, reaches the state and address of the handler if and only if the handler does not trap on alignment |
| `TransEnds.JalrAgreesIff` | src/guest/rv32_qir.cpp:274-287 | jalr agrees from every state if and only if its base is x0 and bit 1 of its offset is clear |
| `TransEnds.JalrStateFails` | src/guest/rv32_qir.cpp:276-281 | for every other base, a register value that makes the target two |
| `TransEnds.BranchMatches` | src/guest/rv32_qir.cpp:124-143 | a conditional branch leaves to the successor that stands for the handler's address if and only if the handler does not trap on alignment |
| `TransEnds.BranchAgreesIff` | src/guest/rv32_qir.cpp:124-143 | a branch agrees from every state if and only if its offset is a multiple of four or no state takes it, and otherwise differs in a given state |
| `TransEnds.TrapMatches` | src/guest/rv32_qir.cpp:200-220 | ecall and ebreak stop with the CPU state and trap number of the handler |
| `Relaxed.SameStepIff` | src/guest/rv32_interp.cpp:58-69 | a relaxed step is the handler's step if and only if it is neither a jump to a misaligned target nor a defective load that changes its base |
| `Relaxed.SameOrDeparted` | src/guest/rv32_interp.cpp:25-181 | k relaxed steps are k interpreter steps, or one of those k departs, and the first that does is reached by both |
| `Relaxed.DepartureShows` | src/guest/rv32_interp.cpp:58-69 | after a departure the two are in different states |
| `Relaxed.RunX0` | src/guest/rv32_qir.cpp:172-186 | x0 stays zero in relaxed runs |
| `Translate.RV32Translator.MakeGBr` | src/guest/rv32_qir.cpp:113-122 | the branch appended goes to the given address: a branch to the first block if the address is its entry, otherwise an exit |
| `Translate.RV32Translator.TranslateBrcc` | src/guest/rv32_qir.cpp:124-143 | both successors stand for the right addresses, taken first, and each is the entry block exactly when its address is the entry |
| `Translate.RV32Translator.TranslateLoad` | src/guest/rv32_qir.cpp:172-186 | appends exactly the load sequence with one temporary if the offset is nonzero and none otherwise, well formed unless its destination is a constant |
| `Translate.RV32Translator.TranslateStore` | src/guest/rv32_qir.cpp:188-198 | appends exactly the store sequence, well formed, within the cost bound |
| `Translate.RV32Translator.TranslateJalr` | src/guest/rv32_qir.cpp:274-287 | the target is computed before the link register is written |
| `Translate.RV32Translator.TranslateInsn` | src/guest/rv32_qir.cpp:105-111 | fails exactly on illegal words; the code appended takes the relaxed step of every other word and costs at most three temporaries over translation and selection |
| `TransRuns.FallOn` | src/guest/rv32_qir.cpp:83-94 | after a fall-through the block stays open if and only if it holds fewer than 64 instructions and the next address is below the boundary; otherwise it is closed by a branch to that address |
| `TransRuns.TranslateIPRange` | src/guest/rv32_qir.cpp:75-95 | fetches consecutive words below the boundary up to exactly the first that does not fall through, the 64th, or the last below the boundary; fails exactly on an illegal last word, and yields a region of at most 3 blocks and 3 temporaries per instruction that ends where relaxed steps do, well formed unless a load has a constant as destination |
| `TransRuns.TranslationRefines` | src/guest/rv32_qir.cpp:62-143 | every run of the region, back edges to the entry included, reaches the registers, memory, events and next address of some number of relaxed steps, at least one per block |
| `SelSteps.StepSame` | src/codegen/select.cpp:22-81 | the rewritten instruction has the original effect on all prior registers once its inputs read the same |
| `SelSteps.SelectionPreservesRuns` | src/codegen/select.cpp:121-134 | every run of a region keeps its events, branches and all prior registers under selection |
| `Select.QSel.FreeDestination` | src/codegen/select.cpp:22-81 | a second input that is the destination is moved to a fresh temporary first |
| `Select.QSel.SatisfyAlias` | src/codegen/select.cpp:22-81 | afterwards the aliased input is the output, with one temporary exactly when the destination is the other input |
| `Select.QSel.LowerConstants` | src/codegen/select.cpp:22-81 | every remaining constant fits its immediate class; one temporary per constant that did not |
| `Select.QSel.SelectOperands` | src/codegen/select.cpp:22-81 | the inserted moves and the rewritten instruction compute the original result on all prior registers and meet every operand constraint, with an exact count of temporaries and of moves |
| `Select.Run` | src/codegen/select.cpp:121-134 | the selected region matches the original, meets all constraints, keeps the control flow graph, and reports calls exactly |
| `Qir.MostConstrainedFirst` | src/codegen/arch_traits.cpp:59-71 | inputs are ordered by number of admissible registers |
| `Qir.ConstantsTaken` | src/codegen/arch_traits.cpp:85-126 | the constants that fit the table are exactly those the encodings take |
| `Qir.RegistersTaken` | src/codegen/arch_traits.cpp:76-126 | the table admits register 1 alone for a shift count, 6 alone for an indirect target, and all 16 elsewhere |
| `AllocView.SimTrans` | src/codegen/regalloc.cpp:94-206 | the coupling carried by inserted moves composes |
| `AllocMoves.WithSlotOk` | src/codegen/regalloc.cpp:178-189 | a new frame slot is aligned, disjoint from all others and inside the frame, and keeps the coupling |
| `AllocMoves.FrameBound` | src/codegen/regalloc.cpp:178-189 | frame use is at most four bytes per local, so 768 bytes for 192 locals |
| `AllocMoves.RoundUpLeast` | src/codegen/regalloc.cpp:178-189 | a slot starts at the least aligned offset that is free |
| `AllocMoves.SpilledSim` | src/codegen/regalloc.cpp:111-118 | the spill move makes the slot equal to the value and disturbs nothing else |
| `AllocMoves.FilledSim` | src/codegen/regalloc.cpp:191-206 | the fill move puts the value into the register and disturbs nothing else |
| `AllocSteps.StepWithDest` | src/codegen/regalloc.cpp:267-353 | an operation with a result simulates its virtual form from every coupled pair of states |
| `AllocSteps.StepHcall` | src/codegen/regalloc.cpp:356-370 | a helper call simulates its virtual form whatever it leaves in the registers it clobbers |
| `RegAlloc.ChoiceExists` | src/codegen/regalloc.cpp:94-109 | an admissible register is always left, because the most constrained input goes first |
| `RegAlloc.QRegAlloc.AllocPReg` | src/codegen/regalloc.cpp:94-109 | never panics; returns the lowest admissible free register, or, only if none is free, the lowest admissible one after spilling its owner and nothing else; never STATE, MEMBASE or SP |
| `RegAlloc.QRegAlloc.AllocFrameSlot` | src/codegen/regalloc.cpp:178-189 | the slot starts at the least aligned offset past the others, lies inside the 1024 bytes of the frame, and the invariant is kept |
| `RegAlloc.QRegAlloc.SyncSpill` | src/codegen/regalloc.cpp:147-162 | afterwards a value in a register equals its slot; one move is emitted if it did not and none otherwise; location and register are unchanged |
| `RegAlloc.QRegAlloc.Release` | src/codegen/regalloc.cpp:164-176 | the register is freed and the reverse map updated, with the value safe in memory |
| `RegAlloc.QRegAlloc.Spill` | src/codegen/regalloc.cpp:133-145 | the value goes home and its register is freed; no other track changes |
| `RegAlloc.QRegAlloc.Fill` | src/codegen/regalloc.cpp:191-206 | the value is in a register; if it had to be loaded, in the lowest admissible one and by one move after at most one spill; protected registers keep their contents and owners |
| `RegAlloc.QRegAlloc.BlockBoundary` | src/codegen/regalloc.cpp:247-253 | every global is in its state slot; locals keep their stale marks and are no longer relied on |
| `RegAlloc.QRegAlloc.RegionBoundary` | src/codegen/regalloc.cpp:255-265 | every global is in its state slot and no register is owned |
| `RegAlloc.QRegAlloc.CallOp` | src/codegen/regalloc.cpp:356-370 | every register that the System V convention lets a callee overwrite is empty and the CPU state is complete; the eight-bit counter does not wrap |
| `RegAlloc.QRegAlloc.AllocInputs` | src/codegen/regalloc.cpp:280-304 | each input reads the virtual value in an admissible register that later inputs do not disturb |
| `RegAlloc.QRegAlloc.AllocOp` | src/codegen/regalloc.cpp:267-353 | the instruction meets the emitter's assertions, a shift count in CX and results outside STATE, MEMBASE and SP among them, reads the virtual values, has all globals synced if it has a side effect, and its result is tracked |
| `RegAlloc.QRegAlloc.AllocBlock` | src/codegen/regalloc.cpp:426-438 | the emitted block behaves like the virtual one from every pair of agreeing states, whatever registers and frame held |
| `RegAlloc.Run` | src/codegen/regalloc.cpp:426-438 | every block refines its virtual block, every instruction can be emitted (a shift count is a constant or in CX, constants fit their fields, no result goes to STATE, MEMBASE or SP), the control flow graph is kept, for up to 256 locals, or 223 in a region with helper calls |
| `RegAlloc.AllocationPreservesRuns` | src/codegen/regalloc.cpp:94-438 | from loaded base registers every run makes the same branch choices and memory accesses with the same CPU state visible at each, and ends with every global in its state slot and the base registers loaded |
| `RegAlloc.RegionKeepsBases` | src/codegen/arch_traits.h:79-90 | no run of an allocated region, of any length, moves STATE, MEMBASE or SP |
| `SelForm.StepKeepsBases` | src/codegen/arch_traits.h:79-105 | neither an operation that writes another register nor a helper call moves STATE, MEMBASE or SP |
| `Emit.SetccClear` | src/codegen/emit.cpp:332-351 | clearing first computes the condition when the destination is not an input |
| `Emit.SetccExtend` | src/codegen/emit.cpp:332-351 | extending afterwards computes it when the destination is an input |
| `Emit.SwapKeeps` | src/ir/qir.h:468-494 | a condition on swapped operands holds exactly when the swapped condition does |
| `Emit.BinEmitted` | src/codegen/emit.cpp:367-422 | the two-address form computes the three-address result, and has an encoding: a shift count is in CX or constant, a constant fits its field |
| `Emit.MovEmitted` | src/codegen/emit.cpp:353-365 | an emitted move has the effect of the QIR move |
| `Emit.LoadEmitted` | src/codegen/emit.cpp:270-317 | an emitted load has the effect and event of the QIR load; a constant address is a displacement that sign-extends to itself |
| `Emit.StoreEmitted` | src/codegen/emit.cpp:270-330 | an emitted store has the effect and event of the QIR store; a constant address is a displacement that sign-extends to itself |
| `Emit.BrccEmitted` | src/codegen/emit.cpp:187-209 | compare, conditional jump and jump or fall-through reach the successor the condition names, with and without operand swap |
| `Emit.BrEmitted` | src/codegen/emit.cpp:179-185 | a branch to the next block may fall through |
| `Emit.ExitEmitted` | src/codegen/emit.cpp:211-267 | slots and indirect branches leave to the address QIR names |
| `EmitRuns.QEmit.EmitSetcc` | src/codegen/emit.cpp:332-351 | appends code that matches the instruction |
| `EmitRuns.QEmit.EmitBrcc` | src/codegen/emit.cpp:187-209 | appends code that matches the branch given the block order, with a jump exactly when the second successor does not follow |
| `EmitRuns.QEmit.EmitBlock` | src/codegen/qcg.cpp:53-64 | binds the label at the current end and appends code that matches the whole block |
| `EmitRuns.EmitRegion` | src/codegen/qcg.cpp:53-64 | blocks lie in order, each at its label, each matching; no helper call is emitted into a leaf |
| `EmitRuns.LayoutPreservesRuns` | src/codegen/emit.cpp:179-209 | every run of the control flow graph is a run of the linear code, at the label of the block the graph names, and takes machine steps in proportion to its blocks |
| `EmitRuns.LayoutReflectsRuns` | src/codegen/emit.cpp:179-209 | linear code that ends got there along a run of the graph; it never runs off its end or reads unset flags |
| `EmitRuns.LeftAt` | src/codegen/emit.cpp:211-225 | code is left only at a branch slot holding the target's address or at an indirect branch |
| `EmitRuns.LinearKeepsBases` | src/codegen/arch_traits.h:79-90 | at every point of a run of emitted code STATE, MEMBASE and SP are what they were on entry |
| `Pipeline.GenerateCode` | src/codegen/qcg.cpp:18-36 | the three passes compose: 32 globals and 192 locals always fit the tables, and a region emitted as a leaf has no helper calls |
| `Pipeline.CompiledRun` | src/ir/compile.cpp:7-17 | every finished run of compiled code is a run of at least one relaxed step |
| `Pipeline.CompiledProgress` | src/ir/compile.cpp:7-17 | for every n compiled code reaches its end, or after at least n machine steps a state that at least n relaxed steps reach |
| `Pipeline.RefusedReached` | src/guest/rv32_qir.cpp:181-185 | entering a range that holds a load with a constant destination means executing it within 64 steps |
| `Pipeline.IllegalReached` | src/guest/rv32_qir.cpp:255 | where the translator panics the guest, interpreted or translated, traps on an illegal word within 64 steps |
| `Pipeline.Compile` | src/ir/compile.cpp:7-17 | for every code memory and entry: yields code whose every run is a run of relaxed steps and keeps STATE, MEMBASE and SP, or fails within 64 steps of an illegal word or a load with a constant destination; the words fetched are exactly those up to a branch, the 64th, the boundary or the illegal word |
| `TCache.InlinedOffset` | src/codegen/emit.cpp:227-248 | the inlined shift and mask is the byte offset of the entry of the target's hash |
| `TCache.ProbeHit` | src/codegen/emit.cpp:227-248 | a match for a nonzero target, or in an occupied entry, gives the code of the map's block |
| `TCache.ProbeZero` | src/codegen/emit.cpp:227-248 | a match gives a null pointer if and only if the target is zero and its entry empty |
| `NullRun.RunsIntoNull` | src/codegen/emit.cpp:227-248 | the failing run: a guest that executes `jalr x0, 0(x0)` at address 4 ends in a jump through null |
| `TCache.InsertCoherent` | src/tcache.cpp:63-67 | inserting an absent address keeps both caches inside the map |
| `TCache.BrindCoherent` | src/tcache.h:52-56 | caching an indirect target keeps both caches inside the map |
| `TCache.TranslationCache.Lookup` | src/tcache.h:38-48 | the answer is the map's entry whatever collisions and refills occurred |
| `TCache.TranslationCache.Insert` | src/tcache.cpp:63-67 | the map and the first level hold the new block and coherence is kept |
| `TCache.TranslationCache.CacheBrind` | src/tcache.h:52-56 | the entry of the target's hash is replaced and coherence is kept |
| `TCache.TranslationCache.RecordLink` | src/tcache.h:58-64 | the link is added under the target's address |
| `TCache.TranslationCache.LookupUpperBound` | src/tcache.cpp:69-75 | the block with the least address above the given one, or none if there is none |
| `TCache.TranslationCache.GetCompilationIPRange` | src/execute.cpp:38-44 | the end passes neither the page nor the next block, and is nonzero if and only if the address is in 1..0xfffff000 |
| `WordOrder.LeTrans` | src/tcache.cpp:69-75 | the unsigned order that the map is sorted by is transitive |
| `Ranges.RangeContained` | src/execute.cpp:38-44 | every word fetched for an aligned entry lies in its page, and none after the first is the entry of a cached block |
| `Ranges.PageEndNum` | src/execute.cpp:38-44 | the end of the page is the address rounded up to a multiple of 4096, modulo 2^32 |
| `Chain.LinkKept` | src/codegen/jitabi.cpp:91-103 | linking a lazy slot to the map's block for its address keeps the tables in order |
| `Chain.CompileKept` | src/execute.cpp:24-35 | a new block invalidates no pointer, slot or link |
| `Chain.HookKept` | src/execute.cpp:67-73 | linking the escaped slot or caching the indirect target keeps the tables in order |
| `Chain.StepSafe` | src/execute.cpp:46-78 | every step of dispatch, code and linker keeps the protocol invariant |
| `Chain.RunSafe` | src/execute.cpp:46-78 | in every reachable state each patched slot jumps to the map's code for its address and is recorded once under it, all records are of patched slots, an escape with a slot is at the slot's address, and a running block has its base registers loaded and x0 zero |
| `Chain.UnitBases` | src/codegen/jitabi.cpp:36-57 | in a safe state STATE, MEMBASE and SP hold the addresses that the trampoline loaded, wherever the code of the block has got to |
| `ChainRuns.DispatchFollows` | src/execute.cpp:52-77 | a turn of the dispatch loop keeps the guest where the interpreter is |
| `ChainRuns.SlotFollows` | src/codegen/jitabi.cpp:91-103 | so does leaving through a patched or lazy slot |
| `ChainRuns.BrindFollows` | src/codegen/jitabi.cpp:121-130 | so does leaving through the inlined probe or its slow path |
| `ChainRuns.RunFollowsRelaxed` | src/execute.cpp:46-78 | every reachable state has the registers, memory and events of some number of relaxed steps since the guest was last let run; the system gives up only within 64 steps of an illegal word or a load with a constant destination, at an uncompilable address, or by a jump to zero |
| `ChainRuns.RunFollowsInterpreter` | src/execute.cpp:46-78 | end to end: every reachable state is the interpreter's state after as many steps as the guest has taken, unless one of the steps already taken departed |
| `ChainRuns.EventsPrecise` | src/guest/rv32_interp.cpp:70-81 | each event of relaxed steps holds the state just before its instruction, which is the interpreter's unless an earlier step departed |
| `ChainRuns.BlockEvents` | src/codegen/regalloc.cpp:306-312 | the accesses of a running block, any number of machine steps into it, are accesses of guest steps |
| `ChainRuns.RunPrecise` | src/codegen/regalloc.cpp:306-312 | precise state: at every load, store and trap of every run, also inside a block that is never left, the CPU state in memory holds all guest registers from just before that instruction and its address, and is the interpreter's unless an earlier step departed |
| `ChainRuns.RunAdvances` | src/execute.cpp:46-78 | no reachable block falls silent: it ends, or machine steps and guest steps both go on without bound and meet again and again |
| `ChainRuns.RunNeverWedges` | src/codegen/jitabi.cpp:91-130 | in every reachable state code that has come to an end has a next step; no jump goes through a dangling pointer |
| `Dispatcher.StepSimulated` | src/codegen/jitabi.cpp:91-130 | each step through links and caches is one or two steps of the dispatcher without them |
| `Dispatcher.ChainingRefinesDispatch` | src/execute.cpp:52-77 | every run visits the same block entries in the same order, with the same state, as a dispatcher that searches the map at every branch |
| `Dispatcher.RunQuiet` | src/execute.cpp:11-15 | in no reachable state is a trap pending while the guest runs, and a jump through null happens only at address zero |
| `Runtime.Jit.TryLinkBranch` | src/codegen/jitabi.cpp:91-103 | patches and records the slot if the target is known, otherwise saves the address and changes no table |
| `Runtime.Jit.Brind` | src/codegen/jitabi.cpp:121-130 | saves the address, answers with the map's code and caches it, or answers none |
| `Runtime.Jit.Call` | src/codegen/jitabi.cpp:36-57 | enters a block with the CPU state, guest memory and frame addresses in R13, RBP and RSP |
| `Runtime.Jit.CompileBlock` | src/ir/compile.cpp:7-17 | stores good code and inserts its block, or reports why there is none and changes nothing; fetches exactly the words up to a branch, the 64th, the end of the range or an illegal word, from an aligned address all in its page and none after the first the entry of a known block |
| `Runtime.Jit.GetBlock` | src/execute.cpp:59-65 | the known block, or the range from the address to the end of its page or the next known block, compiled to its end |
| `Runtime.Jit.DispatchOnce` | src/execute.cpp:52-77 | takes a dispatch step of the transition system |
| `Runtime.Jit.TakeSlot` | src/codegen/emit.cpp:211-220 | takes the exit step of the transition system for a slot |
| `Runtime.Jit.TakeBrind` | src/codegen/emit.cpp:222-267 | takes the exit step for an indirect branch, with the probe at the inlined offset |
| `Runtime.Jit.RunBlock` | src/execute.cpp:75-76 | a block that ends takes a step of the transition system; one that does not is still running after all its machine steps and changes nothing |
| `Runtime.Jit.Execute` | src/execute.cpp:46-78 | the loop performs consecutive steps of the transition system and keeps the invariant: as many as it was given turns, unless it comes to an end or to a block that does not finish within the budget |
| `BranchSlots.BranchSlot.CreatePatch` | src/codegen/jitabi.h:48-53 | overwrites the first bytes and no others |
| `BranchSlots.BranchSlot.LinkLazyJIT` | src/codegen/jitabi.h:76-80 | the bytes call the stub, and the pushed return address leads back to the slot |
| `BranchSlots.BranchSlot.Link` | src/codegen/jitabi.h:82-91 | the bytes jump to the target in either form; the short form leaves the tail alone |
| `BranchSlots.PatchRoundTrip` | src/codegen/jitabi.h:60-91 | whatever the bytes were, decoding the patch gives the target in either form, and the return address of the lazy call gives the slot |
| `SlotBytes.CallerIsSlot` | src/codegen/jitabi.h:60-64 | a lazy slot's bytes call the stub with a return address that leads back to it, a patched slot's bytes jump to the code the table names |
| `SlotBytes.StepWritten` | src/codegen/jitabi.h:76-91 | every step is matched by writes of slot bytes: lazy calls into new code and one jump over the lazy call of each slot it patches, nothing else |
| `SlotBytes.RunWritten` | src/codegen/jitabi.h:76-91 | along every run, starting with no slots, the writes of each step to the bytes as they were before it keep every slot executing as the table says |
| `ILists.InsertBefore` | src/util/ilist.h:20-27 | the node sits between the two neighbours, no other pointer changes |
| `ILists.Remove` | src/util/ilist.h:29-35 | the neighbours point to each other, the node keeps its own pointers |
| `ILists.IList.Insert` | src/util/ilist.h:142-145 | the pointer surgery refines insertion into a sequence and keeps the ring |
| `ILists.IList.Delete` | src/util/ilist.h:150 | the pointer surgery refines deletion from a sequence and keeps the ring |
| `ILists.IList.Erase` | src/util/ilist.h:151-156 | deletes and returns the element after |
| `ILists.IList.Empty` | src/util/ilist.h:72 | the sentinel test is emptiness of the sequence |
| `ILists.IList.EditPass` | src/codegen/select.cpp:126-132 | a pass that inserts before its cursor visits each original element once, in order, and no inserted one |
| `ILists.IList.Replace` | src/ir/qir_opt.cpp:15-23 | inserting the folded instruction and erasing the old one replaces it in place and returns it |
| `BitField.DecodeIsField` | src/util/bitfield.h:47-53 | the two shifts extract digits l to h |
| `BitField.DecodeSignedIsField` | src/util/bitfield.h:21-26 | with arithmetic shifts the field is sign-extended |
| `BitField.EncodeParts` | src/util/bitfield.h:55-65 | the field becomes the value modulo its width; everything above and below is kept |
| `BitField.EncodeDecode` | src/util/bitfield.h:14-65 | encode then decode returns the value modulo the width |
| `BitField.EncodeKeeps` | src/util/bitfield.h:55-65 | disjoint fields are preserved |
| `BitSeq.SeqDecodeConcatenates` | src/util/bitfield.h:77-96 | over any field list the result is the concatenation, sign-extended from the last field |
| `BitSeq.ImmediateI` | src/guest/rv32_insn.h:55-63 | the I immediate, decoded in 16 bits, as in section 2.3 of the RISC-V Unprivileged ISA |
| `BitSeq.ImmediateS` | src/guest/rv32_insn.h:75-83 | the S immediate, decoded in 16 bits |
| `BitSeq.ImmediateB` | src/guest/rv32_insn.h:85-94 | the B immediate, decoded in 16 bits and doubled |
| `BitSeq.ImmediateJ` | src/guest/rv32_insn.h:105-113 | the J immediate |
| `BitSeq.SingleFields` | src/guest/rv32_insn.h:29-41 | register numbers, shift amounts and the U immediate |
| `Operands.VGPRRoundTrip` | src/ir/qir.h:116-124 | kind, type, flag and number of a packed virtual register can be read back |
| `Operands.PGPRRoundTrip` | src/ir/qir.h:126-133 | the same for a physical register, whose flag is clear |
| `Operands.ConstRoundTrip` | src/ir/qir.h:135-142 | the same for a 32-bit constant |
| `Operands.SlotRoundTrip` | src/ir/qir.h:144-152 | the same for a slot |

## Left out

- Machine code bytes, relocation and buffer management of the assembler library: emitted operations
  are abstract, except for the bytes of a branch slot.
- The entry and escape trampolines and host stack frames: only their effect is modelled. Registers,
  flags and the spill frame hold anything on entry to a block, except for STATE, MEMBASE and SP. The
  offset of the spill frame from SP, which depends on the pushes of the prologue, is not modelled.
- The width of host addresses: STATE, MEMBASE and SP are words like the other registers.
- sigsetjmp and siglongjmp: a trap is a step that ends the run; the environment may then set any
  guest state and let it run on.
- System calls, ELF loading, guest memory mapping (`src/env.cpp`, `src/syscalls.h`, `src/mmu.cpp`):
  guest memory is a map from addresses to bytes and accesses never fault.
- `tcache::InvalidatePage` and `tcache::Invalidate`: the first has no caller, the second follows pool
  exhaustion. The pools are taken to suffice and blocks are never freed.
- Self-modifying code: the decoded instruction at each address is fixed.
- The block flags for indirect targets and segment entries, and the cross-segment test: nothing
  reads them.
- More than one range per region: the dispatcher always passes one.
- Instruction lists are sequences in the pass models; that editing them in place amounts to this is
  shown once, for the list itself, in `ILists`.
- The interpreter handlers and the transition relation are functions and predicates on values rather
  than code that updates objects.
- Constraint tables are modelled as the values that `InstCt::Make` computes for the operation list,
  not as the loop that fills them; only binary operations have an aliased input.
- Words whose unused fields the decoder does not check are decoded as the decoder does.
- Chain.StepSafe: the transition relation lets a compiled block be any code that the compiler's
  contract admits, which includes what the compiler produces.
- Runtime.Jit.Execute: cut off after a number of turns and machine steps, because a guest need not
  terminate.
- Pipeline.Compile: the emitter's assertions on operand kinds, which only the defective load with
  base x0 violates, are one well-formedness test before selection.
- RegAlloc.Run: regions of more than 256 locals are outside, though the 512-entry table takes them and
  the frame may suffice; translation yields at most 192.
- Emit.ExitEmitted: the inlined probe and the teardown of the frame are one abstract operation; the
  probe itself is modelled in `Runtime.Jit.TakeBrind`.
- Pipeline.CompiledProgress: progress is stated for a running block; that the dispatcher always
  finds or compiles the next one is a contract of `Runtime.Jit.DispatchOnce`.
- Ranges.RangeContained: for 4-aligned entries; a misaligned one is reached only after a departure.
- SlotBytes.RunWritten: a refinement on values; `Runtime.Jit` keeps the table, not the bytes.
