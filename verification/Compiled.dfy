/** The whole pipeline: a program compiled to bytes runs, when a processor fetches
    and decodes those bytes, as the IR program does. */
module Compiled {
  import opened Ir
  import opened Words
  import opened Locations
  import opened RegAlloc
  import opened Machine
  import opened Emission
  import opened Execution
  import opened Encoding
  import opened Decoder
  import opened RoundTrip
  import opened Patching
  import opened Layout
  import opened Relation
  import opened Linker
  import opened Entry
  import opened Calls
  import opened Frames
  import opened Instructions
  import opened ControlFlow
  import opened Correctness
  import IrSemantics

  /** What a program must satisfy to be compiled. */
  ghost predicate Accepted(fs: seq<Func>) {
    Compilable(fs) && forall k :: 0 <= k < |fs| ==> fs[k].blocks != [] && Plain(fs[k])
  }

  /** The image of a program at `base`, and the allocations and addresses in it. */
  ghost predicate ImageOf(fs: seq<Func>, allocs: seq<Allocation>, addr: seq<Word>, base: int, image: Bytes) {
    && Accepted(fs) && |allocs| == |fs| == |addr| && Allocated(fs, allocs)
    && 0 <= base && |image| < 0x8000_0000 && base + |image| < B64
    && (forall k :: 0 <= k < |fs| ==> addr[k] == base + StartOf(fs, allocs, k))
    && image == Enc(Linked(fs, allocs, addr, |fs|))
  }

  method Compile(fs: seq<Func>, base: int) returns (allocs: seq<Allocation>, addr: seq<Word>, image: Bytes)
    requires Accepted(fs) && 0 <= base && base + 0x8000_0000 < B64
    ensures |image| < 0x8000_0000 ==> ImageOf(fs, allocs, addr, base, image)
  {
    hide Compilable, Plain, Linked, Enc;
    var code, starts, calls, relocs;
    allocs, code, starts, calls, relocs := Lower(fs);
    EmittedFacts(fs, allocs, code, starts, calls, relocs);
    if |code| < 0x8000_0000 {
      image, addr := Link(fs, allocs, code, starts, calls, relocs, base);
    } else {
      image, addr := code, [];
    }
  }

  lemma EmittedFacts(fs: seq<Func>, allocs: seq<Allocation>, code: Bytes, starts: seq<nat>, calls: seq<Fixup>,
    relocs: seq<Fixup>)
    requires Emitted(fs, allocs, code, starts, calls, relocs)
    ensures Allocated(fs, allocs)
  {
  }

  function WorldOf(fs: seq<Func>, allocs: seq<Allocation>, addr: seq<Word>, base: int, image: Bytes,
                   lo: int, hi: int, halt: Word, regs0: Regs, stack0: Stack): World
  {
    World(IrSemantics.Prog(fs, addr), allocs, DecodeMap(image, base), lo, hi, halt, regs0, stack0)
  }

  lemma PieceEnds(fs: seq<Func>, allocs: seq<Allocation>, addr: seq<Word>, base: int, image: Bytes, k: nat)
    requires ImageOf(fs, allocs, addr, base, image) && k < |fs|
    ensures base <= addr[k] && addr[k] + SizeAll(FnCode(fs, allocs, k)) <= base + |image|
  {
    hide FnCode, Linked, Enc, Accepted, Allocated, SizeAll;
    EncSize(Linked(fs, allocs, addr, |fs|));
    LinkedSize(fs, allocs, addr, |fs|);
    StartMonotone(fs, allocs, k + 1, |fs|);
  }

  /** Blocks start inside their function. */
  lemma BlockInside(f: Func, a: Allocation, recv: seq<bool>, b: nat)
    requires b <= |f.blocks|
    ensures BlockOff(f, a, recv, b) <= SizeAll(FnAsm(f, a, recv))
  {
    hide Prologue, BlocksAsm, SizeAll;
    SizeAppend(Prologue(f, a), BlocksAsm(a, recv, f.blocks));
    assert f.blocks == f.blocks[..b] + f.blocks[b..];
    BlocksAsmAppend(a, recv, f.blocks[..b], f.blocks[b..]);
    SizeAppend(BlocksAsm(a, recv, f.blocks[..b]), BlocksAsm(a, recv, f.blocks[b..]));
  }

  lemma NearFn(fs: seq<Func>, allocs: seq<Allocation>, addr: seq<Word>, base: int, image: Bytes, k: nat)
    requires ImageOf(fs, allocs, addr, base, image) && k < |fs|
    ensures Near(base, base + |image|, FnCtx(fs, allocs, addr, k))
  {
    hide FnCode, Linked, Enc, Accepted, Allocated, SizeAll, BlockOff, FnAsm, StartOf;
    forall j | 0 <= j < |fs|
      ensures base <= addr[j] <= base + |image|
    {
      PieceEnds(fs, allocs, addr, base, image, j);
    }
    PieceEnds(fs, allocs, addr, base, image, k);
    var ctx := FnCtx(fs, allocs, addr, k);
    forall b | 0 <= b < |ctx.blk|
      ensures base <= ctx.blk[b] <= base + |image|
    {
      BlockInside(fs[k], allocs[k], Recv(fs), b);
      FnCodeIs(fs, allocs, k);
    }
  }

  lemma FnCodeIs(fs: seq<Func>, allocs: seq<Allocation>, k: nat)
    requires k < |allocs| <= |fs|
    ensures FnCode(fs, allocs, k) == FnAsm(fs[k], allocs[k], Recv(fs))
  {
  }

  /** The bytes of function `k`, decoded, are its code, at its address. */
  lemma FunctionPlaced(fs: seq<Func>, allocs: seq<Allocation>, addr: seq<Word>, base: int, image: Bytes, k: nat)
    requires ImageOf(fs, allocs, addr, base, image) && k < |fs|
    ensures CodeAt(DecodeMap(image, base), addr[k], FnCode(fs, allocs, k), FnCtx(fs, allocs, addr, k))
  {
    hide Linked, Enc, SizeAll, FnAsm, StartOf, ResolveAll, HasBytes, CodeAt, DecodeMap, AllEncodable, Near, Plain,
         WellFormed, Compact, AllocationOf, AllGood;
    var ctx := FnCtx(fs, allocs, addr, k);
    Whole(image);
    PieceBytes(image, base, fs, allocs, addr, |fs|, k);
    GoodFunction(fs[k], allocs[k], Recv(fs), |fs|);
    NearFn(fs, allocs, addr, base, image, k);
    PieceEnds(fs, allocs, addr, base, image, k);
    ResolvedFit(FnCode(fs, allocs, k), addr[k], ctx, base, base + |image|);
    ImageCode(image, base, addr[k], FnCode(fs, allocs, k), ctx);
  }

  lemma Whole(image: Bytes)
    ensures HasBytes(image, 0, image)
  {
  }

  lemma SameCtx(w: World, fs: seq<Func>, allocs: seq<Allocation>, addr: seq<Word>, k: nat)
    requires w.p == IrSemantics.Prog(fs, addr) && w.allocs == allocs && |fs| == |allocs| == |addr| && k < |fs|
    ensures CtxOf(w, k) == FnCtx(fs, allocs, addr, k) && FuncAsm(w, k) == FnCode(fs, allocs, k)
  {
    hide BlockOff, FnAsm;
    assert RecvOf(w.p) == Recv(fs);
  }

  lemma AcceptedSubset(fs: seq<Func>, k: nat)
    requires Accepted(fs) && k < |fs|
    ensures InSubset(fs[k])
  {
    hide WellFormed, Plain, Supported, ShortArgs, Names;
    assert Compact(fs[k], |fs|);
  }

  /** A compiled image is a world the simulation holds in. */
  lemma ImageReady(fs: seq<Func>, allocs: seq<Allocation>, addr: seq<Word>, base: int, image: Bytes,
                   lo: int, hi: int, halt: Word, regs0: Regs, stack0: Stack)
    requires ImageOf(fs, allocs, addr, base, image) && 0 <= lo <= hi < B64 && hi % 8 == 0
    ensures Ready(WorldOf(fs, allocs, addr, base, image, lo, hi, halt, regs0, stack0))
  {
    hide Linked, Enc, SizeAll, FnAsm, StartOf, CodeAt, DecodeMap, InSubset, WellFormed, Compact, AllocationOf, BlockOff,
         Plain;
    var w := WorldOf(fs, allocs, addr, base, image, lo, hi, halt, regs0, stack0);
    forall k | 0 <= k < |fs|
      ensures FnOk(w, k)
    {
      FunctionPlaced(fs, allocs, addr, base, image, k);
      PieceEnds(fs, allocs, addr, base, image, k);
      SameCtx(w, fs, allocs, addr, k);
      AcceptedSubset(fs, k);
    }
  }

  // ---------- fetch, decode, execute ----------

  function ByteStep(image: Bytes, base: int, m: M): Outcome {
    match Decode(image, m.rip - base)
    case Some(d) => Exec(d.asm, m.(rip := m.rip + d.len))
    case None => Outcome.Fault
  }

  function ByteSteps(image: Bytes, base: int, m: M, n: nat): Outcome
    decreases n
  {
    if n == 0 then Go(m)
    else match ByteStep(image, base, m)
      case Go(m') => ByteSteps(image, base, m', n - 1)
      case o => o
  }

  lemma {:induction false} BytesRun(image: Bytes, base: int, m: M, n: nat)
    requires !Steps(DecodeMap(image, base), m, n).Fault?
    ensures ByteSteps(image, base, m, n) == Steps(DecodeMap(image, base), m, n)
    decreases n
  {
    hide Exec, Decode;
    if n > 0 {
      assert m.rip in DecodeMap(image, base);
      var o := Machine.Step(DecodeMap(image, base), m);
      assert ByteStep(image, base, m) == o;
      if o.Go? { BytesRun(image, base, o.m, n - 1); }
    }
  }

  /** What fetching and executing the image from state `m` must reach. */
  ghost predicate Observed(w: World, image: Bytes, base: int, m: M, s: IrSemantics.State) {
    match s
    case Running(fs, h) => exists n: nat, m' :: ByteSteps(image, base, m, n) == Go(m') && Related(w, fs, h, m')
    case Returned(x, h) => exists n: nat, m' :: ByteSteps(image, base, m, n) == Go(m') && Finished(w, x, h, m')
    case Exited(status, h) => exists n: nat :: ByteSteps(image, base, m, n) == Machine.Exited(status, h)
    case Stuck => true
  }

  lemma FollowedIsObserved(w: World, image: Bytes, base: int, m: M, s: IrSemantics.State)
    requires w.code == DecodeMap(image, base) && Follows(w, m, s)
    ensures Observed(w, image, base, m, s)
  {
    hide Steps, ByteSteps, Related, Finished, DecodeMap;
    match s {
      case Running(fs, h) =>
        var m' :| Star(w.code, m, m') && Related(w, fs, h, m');
        var n: nat :| Steps(w.code, m, n) == Go(m');
        BytesRun(image, base, m, n);
      case Returned(x, h) =>
        var m' :| Star(w.code, m, m') && Finished(w, x, h, m');
        var n: nat :| Steps(w.code, m, n) == Go(m');
        BytesRun(image, base, m, n);
      case Exited(status, h) =>
        var n: nat :| Steps(w.code, m, n) == Machine.Exited(status, h);
        BytesRun(image, base, m, n);
      case Stuck =>
    }
  }

  /** A compiled program, entered at function `k` with its arguments in place,
      does on the machine, byte by byte, whatever the IR program does: for every
      number of IR steps that meet neither defect the fetched code reaches a state
      that represents the IR state; when the program returns the code has returned
      the same value and memory to its caller with rsp, rbp, the callee-saved registers
      and the caller's stack intact; when it exits the code exits with the same status. */
  lemma CompiledCorrectly(fs: seq<Func>, allocs: seq<Allocation>, addr: seq<Word>, base: int, image: Bytes,
                          w: World, k: nat, args: seq<Word>, m: M, n: nat)
    requires ImageOf(fs, allocs, addr, base, image) && k < |fs|
    requires w == WorldOf(fs, allocs, addr, base, image, w.lo, w.hi, w.halt, w.regs0, w.stack0)
    requires 0 <= w.lo <= w.hi < B64 && w.hi % 8 == 0
    requires Entering(w, [], k, args, m) && Harmless(fs[k], args)
    requires var s := IrSemantics.Running([NewFrame(w, k, args)], m.heap); RoomyRun(w, s, n) && SafeRun(w, s, n)
    ensures Observed(w, image, base, m, RunIr(w.p, IrSemantics.Running([NewFrame(w, k, args)], m.heap), n))
  {
    hide ImageOf, Ready, Entering, RoomyRun, SafeRun, RunIr, Observed, Follows, Harmless;
    Shapes(fs, allocs, addr, base, image);
    ImageReady(fs, allocs, addr, base, image, w.lo, w.hi, w.halt, w.regs0, w.stack0);
    ProgramFollowed(w, k, args, m, n);
    FollowedIsObserved(w, image, base, m, RunIr(w.p, IrSemantics.Running([NewFrame(w, k, args)], m.heap), n));
  }

  /** For a program without the defects nothing is asked of its runs but room. */
  lemma SoundlyCompiled(fs: seq<Func>, allocs: seq<Allocation>, addr: seq<Word>, base: int, image: Bytes,
                        w: World, k: nat, args: seq<Word>, m: M, n: nat)
    requires ImageOf(fs, allocs, addr, base, image) && Sound(fs) && k < |fs| && |args| == Incoming(fs[k])
    requires w == WorldOf(fs, allocs, addr, base, image, w.lo, w.hi, w.halt, w.regs0, w.stack0)
    requires 0 <= w.lo <= w.hi < B64 && w.hi % 8 == 0
    requires Entering(w, [], k, args, m) && RoomyRun(w, IrSemantics.Running([NewFrame(w, k, args)], m.heap), n)
    ensures Observed(w, image, base, m, RunIr(w.p, IrSemantics.Running([NewFrame(w, k, args)], m.heap), n))
  {
    hide ImageOf, Ready, Entering, RoomyRun, SafeRun, RunIr, Observed, LastAlone, Harmless;
    Shapes(fs, allocs, addr, base, image);
    AloneExactly(fs[k]);
    SoundRuns(w, IrSemantics.Running([NewFrame(w, k, args)], m.heap), n);
    CompiledCorrectly(fs, allocs, addr, base, image, w, k, args, m, n);
  }

  // ---------- the premises can be met ----------

  /** The argument a register carries. */
  function ArgOf(r: nat): Option<nat> {
    if r == RDI then Some(0) else if r == RSI then Some(1) else if r == RDX then Some(2)
    else if r == RCX then Some(3) else if r == R8 then Some(4) else if r == R9 then Some(5) else None
  }

  function StartReg(w: World, args: seq<Word>, r: nat): Word
    requires r < 16 && 8 <= w.hi < B64
  {
    if r == RSP then w.hi - 8
    else match ArgOf(r) case Some(j) => if j < |args| then args[j] else w.regs0[r] case None => w.regs0[r]
  }

  function StartCell(w: World, args: seq<Word>, a: int): Word {
    if a == w.hi - 8 then w.halt
    else if 0 <= a - w.hi && 6 + (a - w.hi) / 8 < |args| then args[6 + (a - w.hi) / 8] else 0
  }

  /** An outside caller has just called function `k`. */
  function StartState(w: World, k: nat, args: seq<Word>, h: Heap): M
    requires Has(w, k) && 8 <= w.hi < B64
  {
    M(w.p.addr[k], seq(16, r requires 0 <= r < 16 => StartReg(w, args, r)), None,
      map a: int | w.lo <= a < w.hi + 8 * TailWords(|args|) && a % 8 == 0 :: StartCell(w, args, a), h)
  }

  /** Room for the frame of a call, its arguments above, and no heap there. */
  ghost predicate Clear(w: World, args: seq<Word>, h: Heap) {
    && w.lo <= w.hi - 8 && 8 <= w.hi && w.hi % 8 == 0 && w.hi + 8 * TailWords(|args|) < B64
    && forall a :: w.lo <= a < w.hi + 8 * TailWords(|args|) ==> a !in h
  }

  lemma StartArg(w: World, k: nat, args: seq<Word>, h: Heap, j: nat)
    requires Has(w, k) && Clear(w, args, h) && j < |args|
    ensures ArgAt(StartState(w, k, args, h), w.hi, args, j)
  {
    if j >= 6 {
      assert (w.hi + 8 * (j - 6)) % 8 == 0;
    } else {
      assert ArgOf(ARG[j]) == Some(j);
    }
  }

  lemma StartStack(w: World, k: nat, args: seq<Word>, h: Heap)
    requires Has(w, k) && Clear(w, args, h)
    ensures var m := StartState(w, k, args, h);
            Cell(m.stack, w.hi - 8) == w.halt && Cells(m.stack, w.lo, w.hi) && Separate(m)
  {
    hide Has;
    var m := StartState(w, k, args, h);
    forall a | a in m.stack
      ensures a !in h
    {
    }
  }

  lemma StartRegs(w: World, k: nat, args: seq<Word>, h: Heap)
    requires Has(w, k) && Clear(w, args, h)
    ensures var m := StartState(w, k, args, h);
            m.regs[RSP] == w.hi - 8 && Suspended(w.(stack0 := m.stack), [], m)
  {
    forall p: Phys
      ensures StartReg(w, args, PhysId(p)) == w.regs0[PhysId(p)]
    {
      match p { case Rbx => case R12 => case R13 => case R14 => case R15 => }
    }
  }

  /** Whatever the image, the function, its arguments and the memory: there is a
      machine state in which the function has just been called. */
  lemma CanBeCalled(w: World, k: nat, args: seq<Word>, h: Heap)
    requires Has(w, k) && Clear(w, args, h)
    ensures var m := StartState(w, k, args, h); m.heap == h && Entering(w.(stack0 := m.stack), [], k, args, m)
  {
    hide Suspended, Cells, Separate, Cell, ArgAt, StartReg, StartCell;
    forall j: nat | j < |args|
      ensures ArgAt(StartState(w, k, args, h), w.hi, args, j)
    {
      StartArg(w, k, args, h, j);
    }
    StartStack(w, k, args, h);
    StartRegs(w, k, args, h);
  }

  lemma Shapes(fs: seq<Func>, allocs: seq<Allocation>, addr: seq<Word>, base: int, image: Bytes)
    requires ImageOf(fs, allocs, addr, base, image)
    ensures |allocs| == |fs| == |addr|
  {
  }
}
