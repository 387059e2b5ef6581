# x86-64 back end: a verified model

A model of the compiler back end that turns intermediate code into x86-64 machine code
and object files, with proofs that it does what it is for.

The centre is compiler correctness, in three layers and the theorem that joins them.

* **Intermediate code** (`Ir`, `IrSemantics`): functions over virtual registers, a
  small-step semantics over a stack of frames, wrapping 64-bit arithmetic, byte memory.
* **Location machine** (`Machine`, `Emission`): the instructions the emitter uses over
  sixteen registers, flags, stack cells and the byte heap; the code emitted for each
  intermediate instruction, terminator, prologue and call.
* **Bytes** (`Encoding`, `Decoder`, `Patching`, `Emitter`, `Linker`): the encoder, an
  independently written decoder for REX, ModRM and displacements, the emitter as a class
  whose methods append bytes, record fields and patch branches, and the linker.

`Liveness`, `Intervals`, `LinearScan` and `RegAlloc` model register allocation as the loops
it is written in. `Instructions`, `Frames`, `Calls`, `Entry` and `ControlFlow` run the
emitted code of each construct; `Relation` and `Preservation` say when a machine state
represents an intermediate state and keep it so; `Simulation` and `Correctness` put this
together for all runs, all call depths and all arities; `Compiled` carries it to bytes
that are fetched, decoded and executed, for every run that meets neither of the first two
defects below; `Convention` turns that round and says what any caller of compiled code gets.
`LastParam`, `CallShift`, `SixArguments` and `DivOverflow` run the emitted code where it does
not do what the program means.

Around the centre: the UTF-8 to UTF-16 loop (`Transcoder`), the heap routines
(`HeapRuntime`), the exception handler stack (`Handlers`), the decimal printer and scanner
(`Decimal`), the object-file format (`Codec`, `Serializer`), and the two image writers'
symbol hash table, GOT rewrite, layout and relocation (`NameHash`, `SymbolHash`,
`GotRewrite`, `StaticImage`).

## Where the code and its promises differ

Each is stated with the exact condition under which the code keeps its promise, and shown
on a concrete input.

* A static function's last parameter is not kept live from entry by the allocator
  (src/x86/regalloc.rs:247-250 counts vregs from 0, parameters start at 1), so linear scan
  may give it another parameter's register, which the prologue then overwrites. At the
  callee's first instruction the machine represents the callee's state exactly when every live
  parameter so overwritten was passed the last one's value (`Correctness.StepCall`,
  `Entry.PrologueRuns`); that holds for all arguments exactly when linear scan of the source
  function's intervals gives the last parameter no live parameter's home
  (`Entry.AloneExactly`; the allocation is a function of the source, `RegAlloc.AllocationIs`).
  A shared home means the other parameter's interval has ended before the last one's starts
  (`Entry.SharedStartsLater`). For `first(a, b) { b = 5; return a; }` both live in rbx
  (`LastParam.FirstHomes`), and the compiled bytes return `b` (`LastParam.WrongResult`).
* After a call rsp is where it was exactly when the call is not a receiver-taking static call
  with more than five arguments; there it stays one word low (`CallShift.CallBalance`). The
  epilogue then pops every saved register from its neighbour's cell
  (`CallShift.ShiftedSavers`), while rbp and the return address come from the frame pointer
  and are right. The compiler accepts a caller with six arguments (`SixArguments.CallerAccepted`);
  in any image, whatever convention-keeping callee it has, its bytes lose their caller's r12 and rbx
  (`SixArguments.ConventionBroken`, and with a compiled callee `SixArguments.BrokenByCompiled`).
* The guarded divide runs to its end exactly when it is not the smallest integer divided by
  -1, where it faults (`DivOverflow.DivCoreExactly`); the intermediate semantics is stuck
  there (`DivOverflow.StuckDivisionFaults`).
* The shared-library writer picks a window's register by symbol, the emitter by instruction:
  they agree, and the rewritten window does what the original did, exactly for all windows
  but string addresses loaded into rcx, function addresses and the heap base
  (`GotRewrite.SameEffect`). A string address meant for rcx goes to rsi
  (`GotRewrite.StringAddressLost`). Function addresses, the argument slot, statics without an
  offset, and imports that are not linked and name no shared object are exactly what it cannot
  resolve; their windows deliver the load base (`GotRewrite.UnresolvedExactly`, `GotRewrite.WindowMeans`).
* The free-list path of the allocator zeroes the block after setting the count, so a reused
  block starts with count 0 exactly when its requested size modulo 2^32 exceeds 8
  (`HeapRuntime.Heap.TakeFree`). Its first release then underflows, and it does not return to
  the free list within 2^62 - 1 releases (`HeapRuntime.ReusedIsLost`,
  `HeapRuntime.ReuseExample`).
* The scanner looks for a minus before every digit and reads one byte past the input; it
  agrees with its documentation exactly when no minus follows the digits
  (`Decimal.ScansAsDocumented`, `Decimal.SecondMinusExample`).
* Lead bytes F8..FF are decoded as if they were F0..F7; strict decoding is what the loop does
  exactly when no such lead is followed by bytes a four-byte lead would accept
  (`Transcoder.StrictExactly`, `Transcoder.FoldedExample`).
* An object comes back from its encoding exactly when its initializer's index is below
  2^32 - 1 and it has no load-time import addresses (`Serializer.RoundTripExactly`,
  `Serializer.LastInitLost`).
* Entering a handler does not check the depth: its buffer is inside the state block exactly
  when the depth modulo 2^58 is below 64 (`Handlers.BufferInBlock`); the 65th lies just behind
  it (`Handlers.SixtyFifthBuffer`). Throwing checks it and
  exits beyond the block (`Handlers.State.Throw`); rethrowing does not, and resumes whatever
  lies there, or faults (`Handlers.State.Rethrow`).

The module comment of src/x86/regalloc.rs says intervals that share an endpoint may share a
register; expiry is strict, so they conflict, and the model follows the code. The comment in
src/x86/runtime.rs:268 says `exit_group`, the number 60 is `exit`; the model records only the
status.

## Model

| member | source | states |
|---|---|---|
| Liveness.LiveSets | src/x86/regalloc.rs:164-234 | the `while changed` loop terminates, and `live_in`/`live_out` hold exactly the vregs that some path uses before any definition |
| Liveness.GenKill | src/x86/regalloc.rs:164-209 | the per-block sets are the upward-exposed uses and the definitions of each block |
| Liveness.Pass | src/x86/regalloc.rs:217-233 | one sweep keeps the sets sound, only grows them, and reports no change only at a solution |
| Liveness.VisitBlock | src/x86/regalloc.rs:218-232 | one block's visit, and that a change uses up room in a finite universe |
| Liveness.Complete | src/x86/regalloc.rs:211-234 | any stable pair of sets contains every path-live vreg, so the loop's result is the least solution |
| Liveness.LiveUnfold | src/x86/regalloc.rs:63-152 | path liveness satisfies the dataflow equation at every point |
| Liveness.ExactLocal | src/x86/regalloc.rs:211-234 | live at any point means used later in the block or live out of it, with no definition between |
| Intervals.BuildIntervals | src/x86/regalloc.rs:236-288 | the table built by touching, with `(0, 0)` for vregs nothing touches |
| Intervals.TouchBlocks | src/x86/regalloc.rs:251-285 | the nested loops give each vreg the range from its first to its last touched position |
| Intervals.Coverage | src/x86/regalloc.rs:236-288 | every position where a vreg is live, used or defined lies in its interval, for any control flow with back edges |
| Intervals.SpanTight | src/x86/regalloc.rs:236-288 | both ends of an interval are touched positions |
| LinearScan.OrderRanges | src/x86/regalloc.rs:290-294 | the ranges of all vregs, each once, sorted by start, end, vreg |
| LinearScan.Expire | src/x86/regalloc.rs:304-314 | the loop removes exactly what ended strictly before and returns its registers in order, keeping the scan invariant |
| LinearScan.Furthest | src/x86/regalloc.rs:324-324 | the last of the active entries with the largest recorded end |
| LinearScan.Place | src/x86/regalloc.rs:316-339 | the lowest free register, else the newcomer or the entry recorded to end last is spilled, whichever ends later; each keeps free and active a partition of the pool, slots fresh, recorded ends at or past true ends, and locations conflict free |
| LinearScan.FullMeansCrowded | src/x86/regalloc.rs:316-339 | the pool runs out only where more than five intervals meet |
| LinearScan.Scan | src/x86/regalloc.rs:290-342 | the allocation is `ScanOf` of the intervals; two vregs share a location only if it is a register and their intervals are disjoint; slots are below `spills`; `spills == 0` exactly when no position lies in more than five intervals; at most one slot per vreg |
| RegAlloc.Allocate | src/x86/regalloc.rs:155-343 | the one allocation `Homes(f)`: linear scan over exact liveness and covering intervals, for every well-formed function |
| RegAlloc.AllocationIs | src/x86/regalloc.rs:155-343 | the allocation is a function of the source function |
| RegAlloc.SharedApart | src/x86/regalloc.rs:155-343 | vregs that share a home have disjoint intervals in the source function |
| RegAlloc.Located | src/x86/regalloc.rs:296-342 | every vreg has a real location; slots are below the frame's count |
| RegAlloc.Interference | src/x86/regalloc.rs:155-343 | vregs needed at one point never share a location |
| RegAlloc.EntryInterference | src/x86/regalloc.rs:247-250 | vregs that occupy position 0 have distinct locations |
| Instructions.RunConst | src/x86/encode_x64.rs:886-917 | a constant reaches its home, in the 32-bit and 64-bit forms, and nothing but scratch changes |
| Instructions.RunMov | src/x86/encode_x64.rs:918-934 | all four register/slot moves |
| Instructions.RunNeg | src/x86/encode_x64.rs:938-951 | two's-complement negation, in place or through rax |
| Instructions.RunAluHazard | src/x86/encode_x64.rs:1715-1744 | when b lives in the destination register, the stash in r11 makes the result `a op b` |
| Instructions.RunShift | src/x86/encode_x64.rs:1666-1681 | shifts through cl, counts modulo 64, arithmetic and logical |
| Instructions.RunDivCore | src/x86/encode_x64.rs:1632-1653 | the zero test, both jumps and the divide: zero divisors give 0, otherwise truncated quotient and remainder |
| Instructions.RunDiv | src/x86/encode_x64.rs:1621-1664 | quotient or remainder reaches the destination for signed and unsigned division |
| Instructions.RunBin | src/x86/encode_x64.rs:1618-1756 | every integer operation leaves the intermediate semantics' value in the destination |
| DivOverflow.DivCoreExactly | src/x86/encode_x64.rs:1632-1653 | the guarded divide runs to its end exactly when it is not the smallest integer by -1, and otherwise faults in its fourth instruction |
| DivOverflow.StuckDivisionFaults | src/x86/encode_x64.rs:1621-1664 | where the program is stuck on a division, the compiled code faults |
| Instructions.CmpFlags | src/x86/encode_x64.rs:1854-1883 | condition codes after `cmp` decide the signed comparison, overflow included |
| Instructions.RunCmp | src/x86/encode_x64.rs:1854-1883 | the comparison's 0 or 1 reaches the destination |
| Instructions.RunLoad | src/x86/encode_x64.rs:1061-1071 | the eight bytes at base plus displacement reach the destination |
| Instructions.RunLoadByte | src/x86/encode_x64.rs:1072-1082 | one byte, zero extended |
| Instructions.RunStore | src/x86/encode_x64.rs:1083-1088 | the heap changes at the eight bytes only |
| Instructions.RunFnAddr | src/x86/encode_x64.rs:1048-1055 | the address the linker fixed reaches the destination |
| Instructions.RunMemCpy | src/x86/encode_x64.rs:855-864 | the emitted loop is the ascending byte copy, overlap and length 0 included |
| Instructions.RunMemCmp | src/x86/encode_x64.rs:868-881 | the emitted loop answers 1 exactly for equal bytes |
| Frames.SavedRestored | src/x86/encode_x64.rs:670-673 | pushing the savers and popping them in reverse gives each its value back |
| Frames.RunPushSavers | src/x86/encode_x64.rs:670-673 | the pushes as executed |
| Frames.RunPopSavers | src/x86/encode_x64.rs:735-739 | the pops as executed |
| CallShift.CallBalance | src/x86/encode_x64.rs:952-1047 | on the machine, after the whole call rsp is back exactly when the call is not a receiver-taking static call with more than five arguments, and one word low there |
| CallShift.ReachesCallee | src/x86/encode_x64.rs:952-1047 | all three kinds of call, with any number of arguments, reach the callee with arguments in place and the return address pushed |
| CallShift.ShiftedSavers | src/x86/encode_x64.rs:735-739 | popping one word too low gives each saved register its successor's value and the last one the stray word |
| CallShift.ShiftedEpilogue | src/x86/encode_x64.rs:735-740 | such an epilogue still restores rbp, rsp and the return address |
| SixArguments.CallerHomes | src/x86/regalloc.rs:155-343 | where linear scan puts the vregs of a six-argument caller |
| SixArguments.CallerAccepted | src/x86/encode_x64.rs:600-808 | the compiler accepts that caller in any program with a function to call |
| SixArguments.ConventionBroken | src/x86/encode_x64.rs:963-981 | in any image, executing its bytes calls with the six arguments, and for any callee that keeps the calling convention they break it: r12 comes back as the sixth argument and rbx as r12 |
| SixArguments.BrokenByCompiled | src/x86/encode_x64.rs:963-981 | and that is how they end whenever the image's own callee returns |
| Relation.FrameBytesFit | src/x86/encode_x64.rs:662-669 | the reserved bytes hold all spill slots, so slots never reach the saved registers |
| Relation.InstrCode | src/x86/encode_x64.rs:718-731 | the code of each instruction sits where the layout says, followed by the next one's |
| Preservation.SuspendedDep | src/x86/encode_x64.rs:642-751 | a suspended caller depends only on the cells above the callee's frame and the registers the callee restores |
| Preservation.LiveAfterSet | src/x86/encode_x64.rs:883-1086 | after an instruction stores its result, every vreg live next is still in its home |
| Preservation.FramesAfterSet | src/x86/encode_x64.rs:883-1086 | a store to a home leaves the frames of all callers in order |
| Simulation.StepSet | src/x86/encode_x64.rs:883-1086 | every supported instruction that sets a vreg: its code runs and homes hold again |
| Simulation.StepMem | src/x86/encode_x64.rs:840-881 | the same for instructions that write memory |
| ControlFlow.StepBranch | src/x86/encode_x64.rs:776-789 | the machine takes the branch the condition says |
| ControlFlow.StepJump | src/x86/encode_x64.rs:770-775 | unconditional branches reach their block |
| ControlFlow.StepExitWith | src/x86/encode_x64.rs:758-764 | the process exits with the value as status |
| ControlFlow.StepExit | src/x86/encode_x64.rs:752-757 | the process exits with 0 |
| ControlFlow.EpilogueRuns | src/x86/encode_x64.rs:735-740 | rbx, r12-r15, rbp and rsp are the caller's again |
| ControlFlow.StepRet | src/x86/encode_x64.rs:733-751 | a return from a call that removes what it pushed resumes the caller after it with the result in place and every live home intact |
| ControlFlow.StepLastRet | src/x86/encode_x64.rs:733-751 | returning from the outermost call gives the value to the outside caller, whose stack is untouched |
| Calls.RunPushArgs | src/x86/encode_x64.rs:575-580 | stack arguments lie in order above rsp |
| Calls.RunRegArgs | src/x86/encode_x64.rs:581-583 | register arguments hold their values, none overwritten by a later one |
| Calls.PlaceRuns | src/x86/encode_x64.rs:574-584 | all arguments are where the callee expects them, for any number |
| Calls.StaticRuns | src/x86/encode_x64.rs:963-976 | the receiver-taking static call with any number of arguments: null in rdi, five more in registers, the rest on the stack |
| Entry.MadeUnwinds | src/x86/encode_x64.rs:642-673 | unwinding a fresh frame would give back the caller's registers and stack |
| Entry.PrologueStores | src/x86/encode_x64.rs:642-716 | for any arity and either receiver kind, each parameter's home holds the last argument stored in it |
| Entry.EntryHomes | src/x86/encode_x64.rs:683-716 | after the prologue every live parameter is in its home exactly when each one whose home the last one takes was passed the same value |
| Entry.AloneExactly | src/x86/encode_x64.rs:683-716 | that holds for all arguments exactly when linear scan gives the last parameter of a static function no live parameter's home |
| Entry.ReservedApart | src/x86/regalloc.rs:247-250 | in particular when that parameter is live at entry, or there is a receiver |
| Entry.SharedStartsLater | src/x86/regalloc.rs:247-294 | a parameter whose home the last one takes is in a register and its interval has ended before the last one's starts |
| Entry.ParamLost | src/x86/encode_x64.rs:683-716 | where it is shared, another parameter's value is gone at the first instruction |
| LastParam.FirstHomes | src/x86/regalloc.rs:155-343 | linear scan puts both parameters of the example into rbx |
| LastParam.FirstHarmless | src/x86/encode_x64.rs:683-716 | a call of it is harmless exactly when its arguments are the same |
| LastParam.FirstAccepted | src/x86/encode_x64.rs:600-808 | the compiler accepts it |
| LastParam.WrongResult | src/x86/encode_x64.rs:683-716 | its compiled bytes return the second argument where the program returns the first |
| Entry.PrologueRuns | src/x86/encode_x64.rs:642-716 | at the first instruction the machine represents the callee's first state exactly for such arguments |
| Entry.SuspendHere | src/x86/encode_x64.rs:952-1047 | at a call, the running frame becomes a suspended one that survives the callee |
| Correctness.StepCall | src/x86/encode_x64.rs:952-1047 | a call instruction leads to the callee's first instruction, and the machine represents the callee's first state exactly when no live parameter is overwritten by another value |
| Correctness.StepFollowed | src/x86/encode_x64.rs:600-808 | the machine follows any single step that meets neither defect |
| Correctness.RunFollowed | src/x86/encode_x64.rs:600-808 | and any number of steps |
| Correctness.ProgramFollowed | src/x86/encode_x64.rs:600-808 | from a call of any function: same branches, same memory, same result or exit status; callee-saved registers, rsp and the caller's stack as they were |
| Correctness.SoundRuns | src/x86/encode_x64.rs:642-981 | the last condition can be read off the program: no run of it meets either defect |
| Correctness.RunsOn | src/x86/encode_x64.rs:600-808 | a program that keeps running keeps the machine running |
| Encoding.EncodeSize | src/x86/encode_x64.rs:363-506 | encodings have the lengths the layout counts on |
| RoundTrip.DecodeEncode | src/x86/encode_x64.rs:363-506 | the independent decoder reads every encodable instruction back, for all registers, slots and displacements, whatever surrounds it |
| Patching.EmitIs | src/x86/encode_x64.rs:541-570 | emission appends the encoding and records exactly the fields that need filling |
| Patching.PatchNext | src/x86/encode_x64.rs:803-807 | overwriting one recorded field resolves that instruction and changes no other byte |
| Patching.SettlePasses | src/x86/encode_x64.rs:213-238 | filling branches, then addresses, then calls resolves everything |
| Layout.GoodFunction | src/x86/encode_x64.rs:600-808 | everything emitted is encodable or refers to an existing block or function |
| Emitter.Emitter.EmitGet | src/x86/encode_x64.rs:509-515 | bytes and records are those of the specified load |
| Emitter.Emitter.EmitPut | src/x86/encode_x64.rs:517-522 | and of the specified store |
| Emitter.Emitter.EmitPlaceArgs | src/x86/encode_x64.rs:574-584 | both loops emit the argument sequence that `Calls.PlaceRuns` runs |
| Emitter.Emitter.EmitStaticPlace | src/x86/encode_x64.rs:963-976 | likewise for static calls |
| Emitter.Emitter.EmitCleanup | src/x86/encode_x64.rs:586-598 | the `add rsp` of a call's tail |
| Emitter.Emitter.EmitCall | src/x86/encode_x64.rs:955-957 | a call, its cleanup and its result, with the call's field recorded |
| Emitter.Emitter.EmitDivCore | src/x86/encode_x64.rs:1632-1653 | patching the two short jumps afterwards gives the guarded divide |
| Emitter.Emitter.EmitInstr | src/x86/encode_x64.rs:883-1086 | each supported instruction, by the branches on locations and operands that choose its form |
| Emitter.Emitter.EmitMov | src/x86/encode_x64.rs:918-934 | the four register and slot combinations |
| Emitter.Emitter.EmitConst | src/x86/encode_x64.rs:886-917 | the immediate forms by width and home |
| Emitter.Emitter.EmitAlu | src/x86/encode_x64.rs:1683-1755 | operand forms, and the stash when b is in the destination |
| Emitter.Emitter.EmitCmp | src/x86/encode_x64.rs:1854-1883 | compare, set, extend, store |
| Emitter.Emitter.EmitPrologue | src/x86/encode_x64.rs:642-716 | frame size with its padding, the savers loop and the parameter loop |
| Emitter.Emitter.EmitParam | src/x86/encode_x64.rs:688-716 | one parameter, from a register or the stack, for both receiver kinds |
| Emitter.Emitter.EmitTerm | src/x86/encode_x64.rs:732-800 | each supported terminator, with its branch fields recorded |
| Emitter.Emitter.EmitBlocks | src/x86/encode_x64.rs:718-801 | blocks in layout order and the offset of each |
| Emitter.Emitter.FillJumps | src/x86/encode_x64.rs:803-807 | every branch field resolved, no other byte changed |
| Emitter.Emitter.EmitFunction | src/x86/encode_x64.rs:600-808 | the whole function's bytes, open call sites and relocations |
| Linker.Lower | src/x86/encode_x64.rs:134-136 | all functions one after another, with their starts |
| Linker.FillFields | src/x86/elf.rs:97-183 | every field of one kind filled for the load address |
| Linker.Link | src/x86/encode_x64.rs:213-238 | the image is the encoding of the fully resolved program |
| Linker.ImageCode | src/x86/encode_x64.rs:600-808 | decoding an image gives back the code that was laid out |
| Compiled.Compile | src/x86/encode_x64.rs:74-338 | allocation, emission and linking produce such an image |
| Compiled.ImageReady | src/x86/encode_x64.rs:74-338 | the image of any accepted program is a world the simulation holds in |
| Compiled.BytesRun | src/x86/encode_x64.rs:600-808 | fetching and decoding bytes at each step runs the placed code |
| Compiled.CompiledCorrectly | src/x86/encode_x64.rs:74-338 | for every accepted program, function, arguments and number of steps, executing the bytes does what the intermediate program does, as long as no call of the run loses a live parameter to another value and none returns from a static call that removes less than it pushes |
| Compiled.SoundlyCompiled | src/x86/encode_x64.rs:74-338 | in particular for every run, when every static call removes what it pushes and linear scan gives no last parameter a live one's home |
| Compiled.CanBeCalled | src/x86/encode_x64.rs:642-716 | the theorem's premise can be met: for any image, function, arguments and memory there is a state in which the function has just been called |
| Convention.ConventionKept | src/x86/encode_x64.rs:74-338 | called from any code by a call that places its arguments, a compiled function comes back with its result and rsp, the callee-saved registers and the caller's whole stack intact |
| Transcoder.Next | src/x86/encode_x64.rs:1233-1356 | one turn reads only inside the text and accepts or rejects as specified |
| Transcoder.Transcode | src/x86/encode_x64.rs:1228-1392 | into an object of 2n+16 bytes: its characters are the decoding, its length word their number, its count word and the rest untouched |
| Transcoder.Fill | src/x86/encode_x64.rs:1228-1383 | the loop terminates, and rsi ends behind at most one character per byte |
| Transcoder.ParseExact | src/x86/encode_x64.rs:1233-1356 | a value is accepted exactly when the text, its lead folded, starts with that value's UTF-8 |
| Transcoder.TextSurvives | src/x86/encode_x64.rs:1228-1383 | any sequence of Unicode scalar values comes out as its UTF-16, surrogate pairs included |
| Transcoder.OutputPaired | src/x86/encode_x64.rs:1228-1392 | whatever the bytes, the output is well-formed UTF-16 within the allocated size |
| Transcoder.FoldsCost | src/x86/encode_x64.rs:1247-1247 | how the output differs from strict decoding, counted |
| Transcoder.StrictExactly | src/x86/encode_x64.rs:1247-1247 | equal to strict decoding exactly when no lead F8..FF heads an acceptable sequence |
| Transcoder.FoldedExample | src/x86/encode_x64.rs:1247-1247 | F8 90 80 80 comes out as the pair for U+10000 |
| HeapRuntime.Heap.constructor | src/x86/runtime.rs:113-119 | a zeroed segment is an empty heap |
| HeapRuntime.Heap.Alloc | src/x86/runtime.rs:127-136 | the head of the free list when large enough, else fresh space; the block is new, big enough, zeroed; other blocks untouched |
| HeapRuntime.Heap.TakeFree | src/x86/runtime.rs:130-133 | the free-list path, with the count it really leaves |
| HeapRuntime.Heap.TakeFresh | src/x86/runtime.rs:133-135 | the bump path, count 1 |
| HeapRuntime.Heap.Retain | src/x86/runtime.rs:146-146 | one count word changes, nothing for null |
| HeapRuntime.Heap.Release | src/x86/runtime.rs:156-160 | the block joins the free list exactly when its count, tags aside, reaches 0 |
| HeapRuntime.Heap.Mutate | src/x86/runtime.rs:118-122 | a program storing into its own object never breaks the heap |
| HeapRuntime.PopKeeps | src/x86/runtime.rs:130-132 | taking the head keeps blocks apart, in bounds, aligned and all accounted for, and the list acyclic |
| HeapRuntime.BumpKeeps | src/x86/runtime.rs:133-135 | so does carving |
| HeapRuntime.PushKeeps | src/x86/runtime.rs:159-160 | and pushing, with the stored capacity within the block |
| HeapRuntime.CountingKeepsTags | src/x86/runtime.rs:150-152 | counting below 2^62 leaves both tag bits alone, and the shifted test sees the count |
| HeapRuntime.CarveApart | src/x86/runtime.rs:133-135 | a carved block is disjoint from all others |
| HeapRuntime.CarveCovers | src/x86/runtime.rs:133-135 | and leaves no gap |
| HeapRuntime.ReuseContents | src/x86/runtime.rs:131-132 | what a reused block holds, and that other objects keep their contents |
| HeapRuntime.ReleaseRepeatedly | src/x86/runtime.rs:156-160 | from count 0, no sequence of fewer than 2^62 releases frees the block |
| HeapRuntime.ReusedIsLost | src/x86/runtime.rs:131-160 | so a reused block of more than 8 bytes is lost |
| HeapRuntime.ReuseExample | src/x86/runtime.rs:127-160 | allocate, release, allocate, release 16 bytes: the block stays live with count 2^62 - 1 and both tags set |
| Handlers.BufferInBlock | src/x86/runtime.rs:176-182 | when a handler's buffer is inside the state block |
| Handlers.SixtyFifthBuffer | src/x86/runtime.rs:189-208 | the 65th handler's buffer starts where the block ends |
| Handlers.State.Enter | src/x86/runtime.rs:189-208 | saves rbx, r12-r15, rbp, rsp past the return address and the return address of the machine that called it, and returns 0 |
| Handlers.State.Pop | src/x86/runtime.rs:211-217 | counts down at any depth; within the stack it refines dropping the innermost |
| Handlers.State.Throw | src/x86/runtime.rs:236-244 | puts the machine into the innermost saved context with rax = 1 and the object of rdi in flight, or exits with status 1; with a depth beyond the block it exits too |
| Handlers.State.Rethrow | src/x86/runtime.rs:248-270 | the same with the object already in flight, and at any depth: beyond the block it resumes the eight words lying there, or faults |
| Handlers.State.Unwind | src/x86/runtime.rs:253-266 | the shared resume path at any depth: loads every saved register and jumps, or faults |
| Handlers.State.LoadExc | src/x86/runtime.rs:220-224 | the object in flight |
| Handlers.State.Clear | src/x86/runtime.rs:227-231 | nothing in flight, handlers unchanged |
| Handlers.NestedKeeps | src/x86/runtime.rs:189-217 | over any nested sequence, outer handlers stay exactly as they were |
| Handlers.ThrowResumes | src/x86/runtime.rs:236-244 | a throw after any balanced nested code resumes the handler entered before it |
| Handlers.RethrowGoesOut | src/x86/runtime.rs:248-270 | rethrowing resumes the next handler out with the same object |
| Decimal.PushDigits | src/x86/runtime.rs:25-33 | the digit loop pushes the canonical digits, least significant first |
| Decimal.Itoa | src/x86/runtime.rs:15-49 | for every 64-bit integer, its canonical text in at most 20 bytes |
| Decimal.DigitsDenote | src/x86/runtime.rs:25-39 | canonical digits denote the number |
| Decimal.DigitCount | src/x86/runtime.rs:16-16 | how many digits a bounded number has |
| Decimal.ScanInt | src/x86/runtime.rs:96-96 | the scanner's loop computes its specification, 0 when nothing was read |
| Decimal.ScansAsDocumented | src/x86/runtime.rs:91-96 | it is an optional minus and digits up to the first non-digit, exactly when no minus follows the digits |
| Decimal.SecondMinusExample | src/x86/runtime.rs:91-96 | the line `1-2` scans as -12 |
| Decimal.RoundTrip | src/x86/runtime.rs:15-96 | scanning a printed 64-bit integer gives it back |
| Codec.NumLawful | src/mc_serialize.rs:320-340 | little-endian numbers read back, and are rejected when cut short |
| Codec.BlobLawful | src/mc_serialize.rs:341-354 | so are length-prefixed bytes |
| Codec.ListLawful | src/mc_serialize.rs:368-382 | so are counted lists of anything lawful |
| Codec.FlaggedLawful | src/mc_serialize.rs:384-400 | so are the words announced by a flag byte |
| Codec.Reader.Number | src/mc_serialize.rs:320-340 | the reader's method is that format's reader and moves past what it read |
| Codec.Reader.Block | src/mc_serialize.rs:341-354 | likewise for length-prefixed bytes |
| Codec.Reader.ListOf | src/mc_serialize.rs:368-382 | likewise for the counted loops |
| Codec.Reader.Slots | src/mc_serialize.rs:384-400 | likewise for flagged words |
| Serializer.SymReads | src/mc_serialize.rs:54-105 | symbol tags are read back |
| Serializer.RelocLawful | src/mc_serialize.rs:248-263 | relocations read back, and are rejected when cut short |
| Serializer.BodyLawful | src/mc_serialize.rs:108-266 | so is the whole mandatory part |
| Serializer.RoundTripLaw | src/mc_serialize.rs:108-526 | decoding an encoding, with anything after it, gives the object back |
| Serializer.RoundTripExactly | src/mc_serialize.rs:288-526 | what comes back in every case, and that it is the object itself exactly when the initializer's index is below 2^32 - 1 and there are no load-time addresses |
| Serializer.LastInitLost | src/mc_serialize.rs:477-484 | index 2^32 - 1 comes back as no initializer |
| Serializer.PrefixLaw | src/mc_serialize.rs:357-526 | a strict prefix decodes exactly when it ends where one of the five trailing sections starts, with the defaults for what is missing |
| Serializer.ReadMachineCode | src/mc_serialize.rs:357-526 | the reader that moves a position computes `Decode` |
| NameHash.ElfHash | src/x86/shlib.rs:106-117 | the 32-bit loop computes the System V hash, top four bits clear |
| SymbolHash.BuildTable | src/x86/shlib.rs:682-709 | buckets and chains thread all symbols of a bucket, last first |
| SymbolHash.Lookup | src/x86/shlib.rs:682-709 | the loader's walk agrees with linear search for the last definition |
| SymbolHash.BucketSuffices | src/x86/shlib.rs:689-701 | symbols outside the bucket cannot match |
| SymbolHash.ChainsDescend | src/x86/shlib.rs:689-701 | every chain strictly decreases, so it ends at 0 |
| SymbolHash.FoundExactly | src/x86/shlib.rs:689-701 | a name is found exactly when defined, at its last index |
| GotRewrite.CollectDeps | src/x86/shlib.rs:313-324 | the loop gathers the undefined symbols |
| GotRewrite.DepsAre | src/x86/shlib.rs:313-324 | they are the entries of exactly the unlinked imports whose hint ends in `.so`, each once |
| GotRewrite.DepFound | src/x86/shlib.rs:552-562 | exactly those imports have an undefined symbol, and it bears their name |
| GotRewrite.Rewrite | src/x86/shlib.rs:551-612 | both passes over the relocations: every code window, slot and record as written, a record for each data word, no byte outside windows and slots changed |
| GotRewrite.GotLoadReads | src/x86/shlib.rs:181-195 | the ten bytes decode as a load of the slot |
| GotRewrite.Load | src/x86/shlib.rs:551-599 | what the loader's RELATIVE and GLOB_DAT records store, and that they store nowhere else |
| GotRewrite.WindowMeans | src/x86/shlib.rs:525-599 | for any load base, the rewritten window delivers the value its symbol stands for, the load base itself for one that cannot be resolved |
| GotRewrite.ImportMeans | src/x86/shlib.rs:563-582 | the window of an import left to the loader delivers, in rax, the address found for the symbol of its name |
| GotRewrite.SameEffect | src/x86/shlib.rs:589-597 | it does what the original window, relocated, did exactly when opcode and symbol table agree on the register |
| GotRewrite.RegistersAgree | src/x86/shlib.rs:589-596 | they disagree exactly on string addresses loaded into rcx, function addresses and the heap base |
| GotRewrite.WindowReads | src/x86/encode_x64.rs:526-538 | each emitting site's window decodes as a load of the register its opcode names |
| GotRewrite.StringAddressLost | src/x86/encode_x64.rs:1413-1416 | a string address meant for rcx ends in rsi, rcx is unchanged |
| GotRewrite.UnresolvedExactly | src/x86/shlib.rs:525-582 | which windows get the slot value 0: function addresses, the argument slot, statics without an offset, unlinked imports whose hint does not end in `.so` |
| GotRewrite.RelasApart | src/x86/shlib.rs:551-612 | records touch pairwise different bytes of the object |
| GotRewrite.DataMeans | src/x86/shlib.rs:600-610 | each relocated word of data holds its function's or the heap's address |
| StaticImage.SegmentsApart | src/x86/elf.rs:38-247 | segments disjoint in memory and file, congruent to their offsets, no shared page |
| StaticImage.RegionsApart | src/x86/elf.rs:70-82 | headers, code, data, tables and section headers are disjoint regions of the file |
| StaticImage.WritePieces | src/x86/elf.rs:249-300 | each region is in the file and zeros are between them |
| StaticImage.SymbolMapped | src/x86/elf.rs:97-158 | a symbol's address is mapped to that symbol's own byte of the file; the heap base to none |
| StaticImage.Relocate | src/x86/elf.rs:84-183 | every site holds its relocation, all other bytes are unchanged |
| StaticImage.WriteImage | src/x86/elf.rs:27-303 | the finished file has the relocated code and data in their regions |
| StaticImage.SitesResolve | src/x86/elf.rs:163-182 | read through the segments, each 8-byte site holds its symbol's address and each call site reaches it |
| StaticImage.SitesLand | src/x86/elf.rs:97-182 | so calls and stored addresses lead to the very byte of the symbol they name |

## Left out

- Floating point (`FBin`, `FCmp`, conversions): needs an IEEE model.
- `Raw`, task, coroutine, `CallByName`, `StackAlloc` and `Drop` instructions: opaque bytes or stubs.
- `ScanInt`, `Unwind` and `Rethrow` inside the simulation: liveness records no definition of the first and no use by the second, and handlers are modelled on their own in `Handlers`.
- `CallVirt`, `CallImport`, `LoadImport`, `Alloc`, `WriteStr` and address loads other than `FnAddr` in the simulation: the virtual call has a similar imbalance, not modelled, the import call never removes its stack words, and the others are further constant or helper calls.
- Alignment of the stack to 16 bytes at calls: it depends on how the program is entered.
- The location machine's stack is a set of 8-byte cells and its heap a separate byte map; code is a third, so a program that writes its own code or reads its stack through a heap pointer is not modelled.
- Correctness.ProgramFollowed: assumes the stack region has room for every frame of the run; a run that overflows its stack is not modelled.
- Layout.GoodFunction: functions have fewer than 2^24 vregs and arguments, so that displacements fit 32 bits as the encoder assumes.
- Linker.Link: addresses come from the model's own start table; the merging of separately built objects is in a crate that is not part of this model.
- Linker.Lower: runtime routines and the data section are appended behind the functions and left out here.
- Compiled.Compile: start-up code, runtime routines and data are left out of the image.
- Compiled.CompiledCorrectly: where a call does lose a live parameter, or a static call that removes less than it pushes returns, `Correctness.StepCall`, `LastParam.WrongResult` and `SixArguments.ConventionBroken` say what happens.
- Instructions.RunDivCore: a run of the divide; where there is none, `DivOverflow.DivCoreExactly` shows the fault.
- Transcoder.Transcode: the outer loop over arguments and the length loop are not modelled.
- HeapRuntime.Heap.Alloc: asks that the segment has room, as the routine has no limit check; atomicity of the counts is not modelled.
- Decimal.Itoa: the `write` system call is left out; the buffer contents and length are what it would be given.
- Decimal.ScanInt: the `read` system call is a parameter, the bytes read and their number.
- Handlers.State.Enter: at most 64 live handlers; beyond, its stores leave the block (`Handlers.BufferInBlock`) and are not modelled; the state block is an array beside the machine, so stack, heap and block do not overlap.
- Serializer.ReadMachineCode: strings are their bytes, so the repair of text that is not UTF-8 is left out; positions are unbounded, so the overflow of `pos + n` is not modelled; helper offsets are sequences in flag order.
- Serializer.RoundTripLaw: `encode` is a function rather than a growing vector.
- GotRewrite.Rewrite: windows and data words are disjoint; every relocation of data is of a function or the heap, as the writer's record count assumes; the trampolines for exports are left out.
- StaticImage.WriteImage: headers, symbol and string tables are given as bytes; their fields are not modelled.
- The plug-in interface, mapped memory and in-process execution: foreign calls.
- Trace output and environment switches.
