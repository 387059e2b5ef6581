/** Terminators: branches, exits, and returns into the caller. */
module ControlFlow {
  import opened Ir
  import opened Words
  import opened Liveness
  import IrSemantics
  import opened Locations
  import opened Machine
  import opened Emission
  import opened Execution
  import opened Instructions
  import opened Frames
  import opened Relation
  import opened Preservation
  import opened Simulation

  /** The machine is at the terminator `t` of the top frame's block. */
  ghost predicate AtTerm(w: World, fs: seq<Frame>, h: Heap, m: M, t: Terminator) {
    && Ready(w) && Related(w, fs, h, m) && fs != [] && InWorld(w, IrSemantics.Top(fs))
    && IrSemantics.InstrOf(w.p, IrSemantics.Top(fs)) == None
    && FnOf(w, IrSemantics.Top(fs)).blocks[IrSemantics.Top(fs).block].term == t
  }

  lemma TermIsHere(w: World, fs: seq<Frame>, h: Heap, m: M, t: Terminator)
    requires AtTerm(w, fs, h, m, t)
    ensures CodeAt(w.code, m.rip, TermAsm(AllocOf(w, IrSemantics.Top(fs)), t), CtxOf(w, IrSemantics.Top(fs).fidx))
  {
    hide CodeAt, SizeAll, Suspended, TermAsm, Ready, FrameTop, FrameRsp, LiveHomes, Unwound;
    TermCode(w, IrSemantics.Top(fs));
  }

  lemma TermOperand(w: World, fs: seq<Frame>, h: Heap, m: M, t: Terminator, u: VReg)
    requires AtTerm(w, fs, h, m, t) && u in TermUses(t) && u in Env(fs)
    ensures HomeHolds(m, L(w, fs, u), Env(fs)[u])
  {
    hide CodeAt, SizeAll, Suspended, Ready, FrameTop, FrameRsp, Unwound, LiveHomes;
    OperandHome(w, IrSemantics.Top(fs), m, u);
  }

  // ---------- branches ----------

  function Branched(fs: seq<Frame>, b: nat): seq<Frame>
    requires fs != []
  {
    IrSemantics.Rest(fs) + [IrSemantics.Top(fs).(block := b, pos := 0)]
  }

  lemma TargetExists(w: World, fs: seq<Frame>, h: Heap, m: M, t: Terminator, b: nat)
    requires AtTerm(w, fs, h, m, t) && b in Succs(t)
    ensures b < |FnOf(w, IrSemantics.Top(fs)).blocks|
  {
    hide CodeAt, SizeAll, FnAsm, InSubset, Related;
    assert FnOk(w, IrSemantics.Top(fs).fidx);
  }

  /** Arriving at block `b` with nothing but scratch disturbed. */
  lemma RelatedAtBlock(w: World, fs: seq<Frame>, h: Heap, m: M, t: Terminator, b: nat, m': M)
    requires AtTerm(w, fs, h, m, t) && b in Succs(t) && b < |FnOf(w, IrSemantics.Top(fs)).blocks|
    requires Agree(m', m) && m'.rip == BlockStarts(w, IrSemantics.Top(fs).fidx)[b]
    ensures Related(w, Branched(fs, b), h, m')
  {
    hide CodeAt, SizeAll, Suspended, Unwound, FrameTop, FrameRsp, Cells, Separate, Ready, LiveAt, BlockStarts;
    var fr := IrSemantics.Top(fs);
    var fr' := fr.(block := b, pos := 0);
    BlockEntryAddr(w, fr, b);
    FramesAfterHeap(w, fs, m, m', h);
    FramesRetop(w, fs, m', fr');
    assert IrSemantics.Top(Branched(fs, b)) == fr';
    forall u | u in fr'.env && LiveAt(FnOf(w, fr'), PointOf(fr'), u)
      ensures HomeHolds(m', LocOf(AllocOf(w, fr').loc, u), fr'.env[u])
    {
      LiveByStep(FnOf(w, fr), PointOf(fr), PointOf(fr'), u);
      HoldsAgree(m, m', LocOf(AllocOf(w, fr).loc, u), fr.env[u], h);
    }
  }

  lemma JumpRuns(code: Code, ctx: Ctx, m: M, b: nat) returns (m': M)
    requires CodeAt(code, m.rip, [JmpTo(b)], ctx) && b < |ctx.blk|
    ensures Plus(code, m, m') && m' == m.(rip := ctx.blk[b])
  {
    hide Star, Plus, Steps;
    m' := m.(rip := ctx.blk[b]);
    OneStep(code, ctx, m, JmpTo(b), m');
  }

  lemma StepJump(w: World, fs: seq<Frame>, h: Heap, m: M, yes: nat, no: nat) returns (m': M)
    requires AtTerm(w, fs, h, m, Branch(None, yes, no))
    ensures Plus(w.code, m, m') && Related(w, Branched(fs, yes), h, m')
  {
    hide CodeAt, SizeAll, Related, Ready, Plus, Star;
    var t := Branch(None, yes, no);
    TermIsHere(w, fs, h, m, t);
    TargetExists(w, fs, h, m, t, yes);
    m' := JumpRuns(w.code, CtxOf(w, IrSemantics.Top(fs).fidx), m, yes);
    RelatedAtBlock(w, fs, h, m, t, yes, m');
  }

  /** `test rax, rax; jnz yes; jmp no`. */
  lemma BranchRuns(code: Code, ctx: Ctx, m: M, yes: nat, no: nat) returns (m': M)
    requires CodeAt(code, m.rip, [Test(RAX)] + [JnzTo(yes)] + [JmpTo(no)], ctx) && yes < |ctx.blk| && no < |ctx.blk|
    ensures Plus(code, m, m') && Agree(m', m) && m'.rip == ctx.blk[if m.regs[RAX] != 0 then yes else no]
  {
    hide CodeAt, SizeAll, Star, Plus, Steps;
    Split3(code, m.rip, [Test(RAX)], [JnzTo(yes)], [JmpTo(no)], ctx);
    One(Test(RAX));
    One(JnzTo(yes));
    var m1 := Past(m, 3).(flags := Some(Flags(m.regs[RAX] == 0, m.regs[RAX] >= B63, false)));
    OneStep(code, ctx, m, Test(RAX), m1);
    if m.regs[RAX] != 0 {
      m' := m1.(rip := ctx.blk[yes]);
      OneStep(code, ctx, m1, JnzTo(yes), m');
      StarPlus(code, m, m1, m');
    } else {
      var m2 := Past(m1, 6);
      OneStep(code, ctx, m1, JnzTo(yes), m2);
      StarTrans(code, m, m1, m2);
      m' := JumpRuns(code, ctx, m2, no);
      StarPlus(code, m, m2, m');
    }
  }

  lemma StepBranch(w: World, fs: seq<Frame>, h: Heap, m: M, c: VReg, yes: nat, no: nat) returns (m': M)
    requires AtTerm(w, fs, h, m, Branch(Some(c), yes, no)) && c in Env(fs)
    ensures Plus(w.code, m, m') && Related(w, Branched(fs, if Env(fs)[c] != 0 then yes else no), h, m')
  {
    hide CodeAt, SizeAll, Related, Ready, Plus, Star, HomeOk;
    var t := Branch(Some(c), yes, no);
    TermIsHere(w, fs, h, m, t);
    TermOperand(w, fs, h, m, t, c);
    TargetExists(w, fs, h, m, t, yes);
    TargetExists(w, fs, h, m, t, no);
    var ctx := CtxOf(w, IrSemantics.Top(fs).fidx);
    assert [Test(RAX), JnzTo(yes), JmpTo(no)] == [Test(RAX)] + [JnzTo(yes)] + [JmpTo(no)];
    Split2(w.code, m.rip, Get(RAX, L(w, fs, c)), [Test(RAX)] + [JnzTo(yes)] + [JmpTo(no)], ctx);
    NoRun(w.code, m);
    var m1 := ThenGet(w.code, ctx, m, m, 0, RAX, L(w, fs, c));
    m' := BranchRuns(w.code, ctx, m1, yes, no);
    StarPlus(w.code, m, m1, m');
    RelatedAtBlock(w, fs, h, m, t, if Env(fs)[c] != 0 then yes else no, m');
  }

  // ---------- process exit ----------

  /** The machine leaves through `exit_group(code)` with heap `h`. */
  ghost predicate Exits(code: Code, m: M, status: Word, h: Heap) {
    exists n: nat :: Steps(code, m, n) == Machine.Exited(status, h)
  }

  lemma ExitAfter(code: Code, a: M, b: M, status: Word, h: Heap)
    requires Star(code, a, b) && Step(code, b) == Machine.Exited(status, h)
    ensures Exits(code, a, status, h)
  {
    var n: nat :| Steps(code, a, n) == Go(b);
    StepsAdd(code, a, b, n, 1);
    assert Steps(code, b, 1) == Machine.Exited(status, h);
  }

  /** `mov eax, 231; syscall` with the status in rdi. */
  lemma SyscallRuns(code: Code, ctx: Ctx, m: M, m0: M)
    requires Star(code, m, m0) && CodeAt(code, m0.rip, [Syscall], ctx) && m0.regs[RAX] == 231
    ensures Exits(code, m, m0.regs[RDI], m0.heap)
  {
    hide Star, Steps;
    assert Step(code, m0) == Machine.Exited(m0.regs[RDI], m0.heap);
    ExitAfter(code, m, m0, m0.regs[RDI], m0.heap);
  }

  lemma ExitWithRuns(code: Code, ctx: Ctx, m: M, l: Loc)
    requires CodeAt(code, m.rip, Get(RDI, l) + [MovImmZ(RAX, 231), Syscall], ctx) && HomeOk(m, l)
    ensures Exits(code, m, Home(m, l), m.heap)
  {
    hide CodeAt, SizeAll, Star, Exits, Steps;
    var a := MovImmZ(RAX, 231);
    assert [a, Syscall] == [a] + [Syscall];
    Split2(code, m.rip, Get(RDI, l), [a] + [Syscall], ctx);
    NoRun(code, m);
    var m1 := ThenGet(code, ctx, m, m, 0, RDI, l);
    Split2(code, m1.rip, [a], [Syscall], ctx);
    One(a);
    var m2 := Past(m1, Size(a)).(regs := m1.regs[RAX := 231]);
    ThenStep(code, ctx, m, m1, SizeAll(Get(RDI, l)), a, m2);
    SyscallRuns(code, ctx, m, m2);
  }

  lemma ExitRuns(code: Code, ctx: Ctx, m: M)
    requires CodeAt(code, m.rip, [MovImmZ(RAX, 231)] + [Xor32(RDI)] + [Syscall], ctx)
    ensures Exits(code, m, 0, m.heap)
  {
    hide CodeAt, SizeAll, Star, Exits, Steps;
    var a, z := MovImmZ(RAX, 231), Xor32(RDI);
    Split3(code, m.rip, [a], [z], [Syscall], ctx);
    One(a);
    One(z);
    NoRun(code, m);
    var m1 := Past(m, Size(a)).(regs := m.regs[RAX := 231]);
    ThenStep(code, ctx, m, m, 0, a, m1);
    var m2 := Past(m1, Size(z)).(regs := m1.regs[RDI := 0], flags := None);
    ThenStep(code, ctx, m, m1, Size(a), z, m2);
    SyscallRuns(code, ctx, m, m2);
  }

  lemma StepExitWith(w: World, fs: seq<Frame>, h: Heap, m: M, v: VReg)
    requires AtTerm(w, fs, h, m, ExitWith(v)) && v in Env(fs)
    ensures Exits(w.code, m, Env(fs)[v], h)
  {
    hide CodeAt, SizeAll, Ready, HomeOk, Exits, Related;
    TermIsHere(w, fs, h, m, ExitWith(v));
    TermOperand(w, fs, h, m, ExitWith(v), v);
    RelatedHeap(w, fs, h, m);
    ExitWithRuns(w.code, CtxOf(w, IrSemantics.Top(fs).fidx), m, L(w, fs, v));
  }

  lemma StepExit(w: World, fs: seq<Frame>, h: Heap, m: M)
    requires AtTerm(w, fs, h, m, Exit)
    ensures Exits(w.code, m, 0, h)
  {
    hide CodeAt, SizeAll, Ready, Exits, Related;
    TermIsHere(w, fs, h, m, Exit);
    RelatedHeap(w, fs, h, m);
    assert TermAsm(AllocOf(w, IrSemantics.Top(fs)), Exit) == [MovImmZ(RAX, 231)] + [Xor32(RDI)] + [Syscall];
    ExitRuns(w.code, CtxOf(w, IrSemantics.Top(fs).fidx), m);
  }

  // ---------- returns ----------

  /** What the caller of the top frame sees right after `ret`: its own registers,
      rsp past the return address, the result in rax. */
  ghost predicate BackFrom(w: World, fs: seq<Frame>, m: M, x: Word, m': M)
    requires fs != [] && InWorld(w, IrSemantics.Top(fs))
  {
    && m'.rip == ReturnTo(w, IrSemantics.Rest(fs))
    && m'.regs[RAX] == x && m'.regs[RSP] == FrameTop(w, fs)
    && SamePool(Unwound(w, fs, m).regs, m'.regs)
    && m'.stack == m.stack && m'.heap == m.heap
  }

  /** `leave; ret` from a frame whose base pointer is `bp`. */
  lemma LeaveRet(code: Code, ctx: Ctx, m: M, bp: int) returns (m': M)
    requires CodeAt(code, m.rip, [Leave] + [Asm.Ret], ctx)
    requires m.regs[RBP] == bp && bp + 16 < B64 && bp in m.stack && bp + 8 in m.stack
    ensures Plus(code, m, m') && m'.rip == m.stack[bp + 8] && m'.stack == m.stack && m'.heap == m.heap
    ensures m'.regs == m.regs[RSP := bp + 16][RBP := m.stack[bp]]
  {
    hide CodeAt, SizeAll, Star, Plus, Steps;
    Split2(code, m.rip, [Leave], [Asm.Ret], ctx);
    One(Leave);
    var m1 := Past(m, 1).(regs := m.regs[RSP := bp + 8][RBP := m.stack[bp]]);
    LeaveExec(Past(m, 1), bp);
    OneStep(code, ctx, m, Leave, m1);
    m' := m1.(regs := m.regs[RSP := bp + 16][RBP := m.stack[bp]], rip := m.stack[bp + 8]);
    assert m1.regs[RSP := bp + 16] == m'.regs;
    OneStep(code, ctx, m1, Asm.Ret, m');
    StarPlus(code, m, m1, m');
  }

  lemma LeaveExec(m: M, bp: int)
    requires m.regs[RBP] == bp && bp + 16 < B64 && bp in m.stack
    ensures Exec(Leave, m) == Go(m.(regs := m.regs[RSP := bp + 8][RBP := m.stack[bp]]))
  {
    assert m.regs[RSP := bp][RSP := bp + 8] == m.regs[RSP := bp + 8];
  }

  lemma SaversFacts(rs: seq<Phys>, regs: Regs, s: Stack, base: int)
    ensures Restored(regs, s, base, rs)[RAX] == regs[RAX] && Restored(regs, s, base, rs)[RBP] == regs[RBP]
  {
    forall p | p in rs
      ensures PhysId(p) != RAX && PhysId(p) != RBP
    {
      PhysFacts(p);
    }
    RestoredOther(regs, s, base, rs, RAX);
    RestoredOther(regs, s, base, rs, RBP);
  }

  lemma TopCells(w: World, fs: seq<Frame>, m: M)
    requires Ready(w) && FramesOk(w, fs, m)
    ensures var top := FrameTop(w, fs);
            && 16 <= top <= w.hi < B64 && top - 16 in m.stack && top - 8 in m.stack
            && FrameRsp(w, fs) % 8 == 0 && FrameRsp(w, fs) >= 0
            && Cells(m.stack, FrameRsp(w, fs), top)
  {
    hide CodeAt, SizeAll, Suspended, Unwound, FnOk, Separate, FrameBytes, Savers;
    FrameAligned(w, fs);
    FrameSpan(w, fs);
  }

  /** The epilogue hands the caller back its machine. */
  lemma EpilogueRuns(w: World, fs: seq<Frame>, m0: M, m: M, x: Word) returns (m': M)
    requires Ready(w) && FramesOk(w, fs, m0) && Agree(m, m0) && m.regs[RAX] == x
    requires CodeAt(w.code, m.rip, Epilogue(AllocOf(w, IrSemantics.Top(fs))), CtxOf(w, IrSemantics.Top(fs).fidx))
    ensures Plus(w.code, m, m') && BackFrom(w, fs, m0, x, m')
  {
    hide CodeAt, SizeAll, Suspended, FnOk, Separate, FrameBytes, Savers, Star, Plus, Ready, FrameTop, FrameRsp;
    var a, top := AllocOf(w, IrSemantics.Top(fs)), FrameTop(w, fs);
    var ctx, base := CtxOf(w, IrSemantics.Top(fs).fidx), FrameTop(w, fs) - 16 - FrameBytes(AllocOf(w, IrSemantics.Top(fs)));
    TopCells(w, fs, m0);
    FrameSpan(w, fs);
    assert [Leave, Asm.Ret] == [Leave] + [Asm.Ret];
    Split2(w.code, m.rip, PopSavers(Savers(a)), [Leave] + [Asm.Ret], ctx);
    var m1 := RunPopSavers(w.code, ctx, m, base, Savers(a));
    SaversFacts(Savers(a), m.regs, m.stack, base);
    m' := LeaveRet(w.code, ctx, m1, top - 16);
    StarPlus(w.code, m, m1, m');
    UnwoundPool(w, fs, m0, m, m');
  }

  lemma UnwoundPool(w: World, fs: seq<Frame>, m0: M, m: M, m': M)
    requires fs != [] && InWorld(w, IrSemantics.Top(fs)) && Agree(m, m0)
    requires var a, top := AllocOf(w, IrSemantics.Top(fs)), FrameTop(w, fs);
             && top - 16 in m.stack && FrameBytes(a) <= top - 16 < B64 - 16
             && m'.regs == Restored(m.regs, m.stack, top - 16 - FrameBytes(a), Savers(a))
                           [RSP := top - 16 - FrameBytes(a)][RSP := top][RBP := m.stack[top - 16]]
    ensures SamePool(Unwound(w, fs, m0).regs, m'.regs)
  {
    hide CodeAt, SizeAll, FrameBytes, Savers, FrameTop, InWorld;
    var a, top := AllocOf(w, IrSemantics.Top(fs)), FrameTop(w, fs);
    forall p: Phys
      ensures m.regs[PhysId(p)] == m0.regs[PhysId(p)] && PhysId(p) != RSP && PhysId(p) != RBP
    {
      PhysFacts(p);
    }
    PoolRestored(m0.regs, m.regs, m0.stack, m.stack, top - 16 - FrameBytes(a), Savers(a));
  }

  /** The returned value goes to rax, and the epilogue is next. */
  lemma ResultRuns(w: World, fs: seq<Frame>, h: Heap, m: M, r: Option<VReg>, x: Word) returns (m1: M)
    requires AtTerm(w, fs, h, m, Terminator.Ret(r)) && IrSemantics.RetValue(Env(fs), r) == Some(x)
    ensures Star(w.code, m, m1) && Agree(m1, m) && m1.regs[RAX] == x
    ensures CodeAt(w.code, m1.rip, Epilogue(AllocOf(w, IrSemantics.Top(fs))), CtxOf(w, IrSemantics.Top(fs).fidx))
  {
    hide CodeAt, SizeAll, Ready, Star, HomeOk, Epilogue, FramesOk, LiveHomes, FnOk, CodeAddr, Related, Get;
    TermIsHere(w, fs, h, m, Terminator.Ret(r));
    var ctx, epi := CtxOf(w, IrSemantics.Top(fs).fidx), Epilogue(AllocOf(w, IrSemantics.Top(fs)));
    NoRun(w.code, m);
    match r {
      case Some(v) =>
        TermOperand(w, fs, h, m, Terminator.Ret(r), v);
        Split2(w.code, m.rip, Get(RAX, L(w, fs, v)), epi, ctx);
        m1 := ThenGet(w.code, ctx, m, m, 0, RAX, L(w, fs, v));
      case None =>
        var a := MovImmZ(RAX, 0);
        Split2(w.code, m.rip, [a], epi, ctx);
        One(a);
        m1 := Past(m, Size(a)).(regs := m.regs[RAX := 0]);
        ThenStep(w.code, ctx, m, m, 0, a, m1);
    }
  }

  /** `ret x` of the top frame, up to the caller's side of the call. */
  lemma ReturnRuns(w: World, fs: seq<Frame>, h: Heap, m: M, r: Option<VReg>, x: Word) returns (m': M)
    requires AtTerm(w, fs, h, m, Terminator.Ret(r)) && IrSemantics.RetValue(Env(fs), r) == Some(x)
    ensures Plus(w.code, m, m') && BackFrom(w, fs, m, x, m')
  {
    hide CodeAt, SizeAll, Ready, Plus, Star, Epilogue, FramesOk, BackFrom, LiveHomes;
    var m1 := ResultRuns(w, fs, h, m, r, x);
    m' := EpilogueRuns(w, fs, m, m1, x);
    StarPlus(w.code, m, m1, m');
  }

  /** The outermost function is back: result in rax, every callee-saved register,
      rbp, rsp and the caller's stack as they were at the call, control at the
      return address. */
  ghost predicate Finished(w: World, x: Word, h: Heap, m: M) {
    && m.rip == w.halt && m.regs[RAX] == x && m.regs[RSP] == w.hi && m.heap == h
    && SamePool(w.regs0, m.regs) && SameAbove(w.stack0, m.stack, w.hi)
  }

  lemma StepLastRet(w: World, fs: seq<Frame>, h: Heap, m: M, r: Option<VReg>, x: Word) returns (m': M)
    requires AtTerm(w, fs, h, m, Terminator.Ret(r)) && IrSemantics.RetValue(Env(fs), r) == Some(x) && |fs| == 1
    ensures Plus(w.code, m, m') && Finished(w, x, h, m')
  {
    hide CodeAt, SizeAll, Ready, Plus, Star, LiveHomes, Unwound;
    m' := ReturnRuns(w, fs, h, m, r, x);
    UnwoundStack(w, fs, m);
    assert IrSemantics.Rest(fs) == [];
  }

  // ---------- resuming the caller ----------

  /** The stack side of a suspended caller is in order once its arguments are popped. */
  lemma CallerFrames(w: World, fs: seq<Frame>, v: M, m: M)
    requires Ready(w) && fs != [] && Suspended(w, fs, v)
    requires SamePool(v.regs, m.regs) && m.stack == v.stack
    requires m.regs[RSP] == FrameRsp(w, fs) && w.lo <= FrameRsp(w, fs) && Cells(m.stack, w.lo, w.hi) && Separate(m)
    ensures FramesOk(w, fs, m)
  {
    hide CodeAt, SizeAll, Ready, FrameBytes, Savers, Unwound, FrameTop, FrameRsp, Cells, Separate, AwaitHomes;
    UnwoundDep(w, fs, v, m);
    UnwoundStack(w, fs, v);
    UnwoundStack(w, fs, m);
    SuspendedDep(w, IrSemantics.Rest(fs), Unwound(w, fs, v), Unwound(w, fs, m));
  }

  /** With every awaited home intact, storing the result makes the next position's
      live homes hold. */
  lemma CallerHomes(w: World, fs: seq<Frame>, v: M, m: M, m': M, x: Word)
    requires Ready(w) && fs != [] && AtCall(w, IrSemantics.Top(fs)) && AwaitHomes(w, IrSemantics.Top(fs), v)
    requires SamePool(v.regs, m.regs) && m.stack == v.stack && FramesOk(w, fs, m)
    requires SetsHomeOf(w, fs, m, m', CallOf(w, IrSemantics.Top(fs)).dst, x)
    requires InWorld(w, Advanced(IrSemantics.Top(fs), CallOf(w, IrSemantics.Top(fs)).dst, x))
    ensures LiveHomes(w, Advanced(IrSemantics.Top(fs), CallOf(w, IrSemantics.Top(fs)).dst, x), m')
  {
    hide CodeAt, SizeAll, Suspended, Separate, Unwound, FrameTop, FrameRsp, Cells, Ready, LiveAt;
    var fr, i := IrSemantics.Top(fs), CallOf(w, IrSemantics.Top(fs));
    var loc, fr' := AllocOf(w, fr).loc, Advanced(fr, i.dst, x);
    HomeIsOk(w, fs, m, i.dst);
    forall u | u in fr'.env && LiveAt(FnOf(w, fr'), PointOf(fr'), u)
      ensures HomeHolds(m', LocOf(loc, u), fr'.env[u])
    {
      if u == i.dst {
        SetHolds(m, m', LocOf(loc, i.dst), x);
      } else {
        LiveOther(w, fr, i, i.dst, u);
        HoldsSame(v, m, LocOf(loc, u), fr.env[u]);
        HoldsAfterSet(m, m', LocOf(loc, u), LocOf(loc, i.dst), x, fr.env[u]);
      }
    }
  }

  lemma HoldsSame(v: M, m: M, l: Loc, x: Word)
    requires HomeHolds(v, l, x) && SamePool(v.regs, m.regs) && m.stack == v.stack
    ensures HomeHolds(m, l, x)
  {
  }

  lemma CallTailCode(w: World, fr: Frame)
    requires Ready(w) && AtCall(w, fr)
    ensures CodeAt(w.code, ReturnAddr(w, fr), CallTail(AllocOf(w, fr).loc, CallOf(w, fr)), CtxOf(w, fr.fidx))
    ensures InWorld(w, fr.(pos := fr.pos + 1))
    ensures CodeAddr(w, fr.(pos := fr.pos + 1))
         == ReturnAddr(w, fr) + SizeAll(CallTail(AllocOf(w, fr).loc, CallOf(w, fr)))
  {
    hide CodeAt, SizeAll, InstrAsm, CallHead, CallTail, Ready, CodeAddr;
    var i, loc := CallOf(w, fr), AllocOf(w, fr).loc;
    InstrCode(w, fr, i);
    CallSplit(loc, RecvOf(w.p), i);
    Split2(w.code, CodeAddr(w, fr), CallHead(loc, RecvOf(w.p), i), CallTail(loc, i), CtxOf(w, fr.fidx));
  }

  lemma Balanced(w: World, fr: Frame)
    requires AtCall(w, fr) && PendingFits(w, fr)
    ensures TailBytes(w, fr) == 8 * RemovedWords(CallOf(w, fr))
  {
    WordsBalance(RecvOf(w.p), CallOf(w, fr));
  }

  lemma CleanupRuns(code: Code, ctx: Ctx, m: M, i: Instr) returns (m': M)
    requires IrSemantics.IsCall(i) && CodeAt(code, m.rip, Cleanup(|i.args|), ctx)
    requires m.regs[RSP] + 8 * RemovedWords(i) < B64
    ensures Star(code, m, m') && m'.rip == m.rip + SizeAll(Cleanup(|i.args|))
    ensures m'.regs == m.regs[RSP := m.regs[RSP] + 8 * RemovedWords(i)] && m'.stack == m.stack && m'.heap == m.heap
  {
    hide CodeAt, Star, Plus, Steps;
    if |i.args| > 6 {
      var a := AddRsp((|i.args| - 6) * 8);
      One(a);
      m' := Past(m, Size(a)).(regs := m.regs[RSP := m.regs[RSP] + 8 * RemovedWords(i)], flags := None);
      OneStep(code, ctx, m, a, m');
    } else {
      assert m.regs[RSP := m.regs[RSP]] == m.regs;
      StarRefl(code, m);
      m' := m;
    }
  }

  /** From just after `ret` to the next position of the caller. */
  lemma ResumeRuns(w: World, fs: seq<Frame>, v: M, m: M, h: Heap, x: Word) returns (m': M)
    requires Ready(w) && fs != [] && Suspended(w, fs, v) && PendingFits(w, IrSemantics.Top(fs))
    requires SamePool(v.regs, m.regs) && m.stack == v.stack && m.heap == h && Cells(m.stack, w.lo, w.hi) && Separate(m)
    requires m.rip == ReturnTo(w, fs) && m.regs[RAX] == x
    requires m.regs[RSP] == FrameRsp(w, fs) - TailBytes(w, IrSemantics.Top(fs)) && w.lo <= FrameRsp(w, fs)
    ensures AtCall(w, IrSemantics.Top(fs)) && Star(w.code, m, m')
    ensures Related(w, SetFrames(fs, CallOf(w, IrSemantics.Top(fs)).dst, x), h, m')
  {
    hide CodeAt, SizeAll, Ready, Star, Unwound, FrameTop, FrameRsp, Cells, Separate, AwaitHomes, TailBytes, ReturnAddr,
         FrameSize, LiveHomes, Put, Cleanup, CodeAddr, CtxOf, Related, SamePool, FnOk;
    var fr, i, l := IrSemantics.Top(fs), CallOf(w, IrSemantics.Top(fs)), LocOf(AllocOf(w, IrSemantics.Top(fs)).loc,
        CallOf(w, IrSemantics.Top(fs)).dst);
    var ctx := CtxOf(w, fr.fidx);
    CallTailCode(w, fr);
    Balanced(w, fr);
    ReadyBounds(w);
    FrameAligned(w, fs);
    Split2(w.code, m.rip, Cleanup(|i.args|), Put(RAX, l), ctx);
    var m2 := CleanupRuns(w.code, ctx, m, i);
    SeparateSame(m, m2);
    m' := FinishCall(w, fs, v, m, m2, h, x);
    StarTrans(w.code, m, m2, m');
  }

  lemma ReadyBounds(w: World)
    requires Ready(w)
    ensures 0 <= w.lo <= w.hi < B64 && w.hi % 8 == 0
  {
  }

  lemma PoolKept(v: M, m: M, m2: M, sp: Word)
    requires SamePool(v.regs, m.regs) && m2.regs == m.regs[RSP := sp]
    ensures SamePool(v.regs, m2.regs)
  {
    forall p: Phys
      ensures m2.regs[PhysId(p)] == v.regs[PhysId(p)]
    {
      PhysFacts(p);
    }
  }

  lemma FinishCall(w: World, fs: seq<Frame>, v: M, m: M, m2: M, h: Heap, x: Word) returns (m': M)
    requires Ready(w) && fs != [] && Suspended(w, fs, v)
    requires SamePool(v.regs, m.regs) && m2.stack == v.stack && m2.heap == h && Cells(m2.stack, w.lo, w.hi) && Separate(m2)
    requires 0 <= FrameRsp(w, fs) < B64 && m2.regs == m.regs[RSP := FrameRsp(w, fs)] && m2.regs[RAX] == x
    requires w.lo <= FrameRsp(w, fs)
    requires var fr, i := IrSemantics.Top(fs), CallOf(w, IrSemantics.Top(fs));
             && CodeAt(w.code, m2.rip, Put(RAX, LocOf(AllocOf(w, fr).loc, i.dst)), CtxOf(w, fr.fidx))
             && InWorld(w, fr.(pos := fr.pos + 1))
             && CodeAddr(w, fr.(pos := fr.pos + 1)) == m2.rip + SizeAll(Put(RAX, LocOf(AllocOf(w, fr).loc, i.dst)))
    ensures Star(w.code, m2, m') && Related(w, SetFrames(fs, CallOf(w, IrSemantics.Top(fs)).dst, x), h, m')
  {
    hide CodeAt, SizeAll, Ready, Star, Unwound, FrameTop, FrameRsp, Cells, Separate, AwaitHomes, LiveHomes, Put, HomeOk,
         CodeAddr, FramesOk, SamePool, Agree, SetHome, LiveAt, Related;
    var fr, i := IrSemantics.Top(fs), CallOf(w, IrSemantics.Top(fs));
    PoolKept(v, m, m2, FrameRsp(w, fs));
    CallerFrames(w, fs, v, m2);
    DefinedInRange(w, fr, i, i.dst);
    HomeIsOk(w, fs, m2, i.dst);
    m' := RunPut(w.code, CtxOf(w, fr.fidx), m2, RAX, LocOf(AllocOf(w, fr).loc, i.dst));
    PutAgrees(m2, m', SizeAll(Put(RAX, LocOf(AllocOf(w, fr).loc, i.dst))), LocOf(AllocOf(w, fr).loc, i.dst), x);
    Resumed(w, fs, v, m2, m', h, x);
  }

  lemma PutAgrees(m: M, m': M, size: nat, l: Loc, x: Word)
    requires HomeOk(m, l) && m' == SetHome(Past(m, size), l, x)
    ensures Agree(m', SetHome(m, l, x)) && m'.rip == m.rip + size
  {
  }

  /** The caller's frames, with the result stored. */
  lemma Resumed(w: World, fs: seq<Frame>, v: M, m: M, m': M, h: Heap, x: Word)
    requires Ready(w) && fs != [] && AtCall(w, IrSemantics.Top(fs)) && AwaitHomes(w, IrSemantics.Top(fs), v)
    requires SamePool(v.regs, m.regs) && m.stack == v.stack && m.heap == h && FramesOk(w, fs, m)
    requires SetsHomeOf(w, fs, m, m', CallOf(w, IrSemantics.Top(fs)).dst, x)
    requires var next := IrSemantics.Top(fs).(pos := IrSemantics.Top(fs).pos + 1);
             InWorld(w, next) && m'.rip == CodeAddr(w, next)
    ensures Related(w, SetFrames(fs, CallOf(w, IrSemantics.Top(fs)).dst, x), h, m')
  {
    hide CodeAt, SizeAll, Ready, AwaitHomes, LiveHomes, HomeOk, CodeAddr, FramesOk, SamePool, Agree, SetHome;
    var fr, i := IrSemantics.Top(fs), CallOf(w, IrSemantics.Top(fs));
    var fr', fs' := Advanced(fr, i.dst, x), SetFrames(fs, i.dst, x);
    FramesAfterSet(w, fs, m, m', i.dst, x);
    CallerHomes(w, fs, v, m, m', x);
    FramesRetop(w, fs, m', fr');
    assert IrSemantics.Top(fs') == fr';
    SameHeap(m, m', LocOf(AllocOf(w, fr).loc, i.dst), x);
    CodeAddrEnv(w, fr.(pos := fr.pos + 1), fr');
  }

  lemma CodeAddrEnv(w: World, fr: Frame, fr': Frame)
    requires InWorld(w, fr) && fr' == fr.(env := fr'.env)
    ensures InWorld(w, fr') && CodeAddr(w, fr') == CodeAddr(w, fr)
  {
  }

  lemma StepRet(w: World, fs: seq<Frame>, h: Heap, m: M, r: Option<VReg>, x: Word) returns (m': M)
    requires AtTerm(w, fs, h, m, Terminator.Ret(r)) && IrSemantics.RetValue(Env(fs), r) == Some(x) && |fs| > 1
    requires PendingFits(w, IrSemantics.Top(IrSemantics.Rest(fs)))
    ensures var below := IrSemantics.Rest(fs);
            && AtCall(w, IrSemantics.Top(below)) && Plus(w.code, m, m')
            && Related(w, SetFrames(below, CallOf(w, IrSemantics.Top(below)).dst, x), h, m')
  {
    hide CodeAt, SizeAll, Ready, Plus, Star, LiveHomes, Unwound, Suspended, Cells, Separate, CodeAddr, TailBytes;
    var m1 := ReturnRuns(w, fs, h, m, r, x);
    var below := IrSemantics.Rest(fs);
    UnwoundStack(w, fs, m);
    FrameOrder(w, fs);
    SeparateSame(m, m1);
    m' := ResumeRuns(w, below, Unwound(w, fs, m), m1, h, x);
    PlusStar(w.code, m, m1, m');
  }

  lemma SeparateSame(m: M, m': M)
    requires Separate(m) && m'.stack == m.stack && m'.heap == m.heap
    ensures Separate(m')
  {
  }
}
