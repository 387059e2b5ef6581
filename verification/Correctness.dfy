/** Semantic preservation: every step, and every run, of a program is followed by
    the machine code emitted for it. */
module Correctness {
  import opened Ir
  import opened Words
  import IrSemantics
  import opened Locations
  import opened Machine
  import opened Emission
  import opened Execution
  import opened Instructions
  import opened Frames
  import opened Relation
  import opened Simulation
  import opened ControlFlow
  import opened Calls
  import opened Entry

  // ---------- a call step ----------

  function CallPlace(loc: Locs, recv: seq<bool>, i: Instr): seq<Asm>
    requires IrSemantics.IsCall(i)
  {
    match i
    case CallFn(_, _, args) => PlaceArgs(loc, args)
    case CallStatic(_, fidx, args) => StaticPlace(loc, TakesReceiver(recv, fidx), args)
    case CallFnAddr(_, target, args) => Get(R11, LocOf(loc, target)) + PlaceArgs(loc, args)
  }

  function CallAsm(i: Instr): Asm
    requires IrSemantics.IsCall(i)
  {
    if i.CallFnAddr? then CallReg(R11) else Asm.CallFn(i.fidx)
  }

  /** The address a call instruction in state `m` goes to. */
  predicate Targets(w: World, i: Instr, m: M, k: nat)
    requires IrSemantics.IsCall(i) && Has(w, k)
  {
    if i.CallFnAddr? then m.regs[R11] == w.p.addr[k] else i.fidx == k
  }

  lemma {:induction false} FoundAddr(addr: seq<Word>, x: Word, k: nat)
    requires IrSemantics.FindAddr(addr, x) == Some(k)
    ensures k < |addr| && addr[k] == x
  {
    if addr[|addr| - 1] != x { FoundAddr(addr[..|addr| - 1], x, k); }
  }

  lemma WaitingGet(m: M, m0: M, loc: Locs, vs: seq<VReg>, ws: seq<Word>, x: Word)
    requires Waiting(m, loc, vs, ws) && m0.regs == m.regs[R11 := x] && m0.stack == m.stack
    ensures Waiting(m0, loc, vs, ws)
  {
    hide HomeHolds;
    forall j | 0 <= j < |vs|
      ensures HomeHolds(m0, LocOf(loc, vs[j]), ws[j]) && AboveSp(m0, LocOf(loc, vs[j]))
    {
      HomeAfterArg(m, m0, R11, x, LocOf(loc, vs[j]), ws[j]);
    }
  }

  lemma PlaceAny(code: Code, ctx: Ctx, m: M, loc: Locs, takes: bool, vs: seq<VReg>, ws: seq<Word>) returns (m1: M)
    requires CodeAt(code, m.rip, StaticPlace(loc, takes, vs), ctx) && Waiting(m, loc, vs, ws)
    requires PushRoom(m, TailWords(|vs| + if takes then 1 else 0))
    ensures Star(code, m, m1) && m1.rip == m.rip + SizeAll(StaticPlace(loc, takes, vs))
    ensures Placed(m, m1, TailWords(|vs| + if takes then 1 else 0), if takes then [0] + ws else ws)
  {
    hide CodeAt, SizeAll, Star, Waiting, PushRoom, Placed, PlaceArgs;
    if takes { m1 := StaticRuns(code, ctx, m, loc, vs, ws); } else { m1 := PlaceRuns(code, ctx, m, loc, vs, ws); }
  }

  /** The value of the indirect target is fetched before the arguments are placed. */
  lemma FetchAndPlace(code: Code, ctx: Ctx, m: M, loc: Locs, l: Loc, x: Word, vs: seq<VReg>, ws: seq<Word>)
    returns (m0: M, m1: M)
    requires CodeAt(code, m.rip, Get(R11, l) + PlaceArgs(loc, vs), ctx) && Waiting(m, loc, vs, ws)
    requires HomeHolds(m, l, x) && PushRoom(m, TailWords(|vs|))
    ensures Star(code, m, m1) && m1.rip == m.rip + SizeAll(Get(R11, l) + PlaceArgs(loc, vs))
    ensures Agree(m0, m) && m1.regs[R11] == x && Placed(m0, m1, TailWords(|vs|), ws)
  {
    hide CodeAt, SizeAll, Star, Waiting, PlaceArgs, Get;
    Split2(code, m.rip, Get(R11, l), PlaceArgs(loc, vs), ctx);
    m0 := RunGet(code, ctx, m, R11, l);
    WaitingGet(m, m0, loc, vs, ws, x);
    m1 := PlaceRuns(code, ctx, m0, loc, vs, ws);
    StarTrans(code, m, m0, m1);
  }

  /** Arguments in place, the call instruction next. */
  ghost predicate AboutToCall(w: World, fs: seq<Frame>, m: M, i: Instr, k: nat, ws: seq<Word>, m0: M, m1: M)
    requires fs != [] && InWorld(w, IrSemantics.Top(fs)) && IrSemantics.IsCall(i) && Has(w, k)
  {
    && Star(w.code, m, m1) && Agree(m0, m) && Placed(m0, m1, PushedWords(RecvOf(w.p), i), ws) && Targets(w, i, m1, k)
    && m1.rip == m.rip + SizeAll(CallPlace(AllocOf(w, IrSemantics.Top(fs)).loc, RecvOf(w.p), i))
  }

  lemma DirectArgs(w: World, fs: seq<Frame>, h: Heap, m: M, i: Instr, k: nat, ws: seq<Word>) returns (m1: M)
    requires Here(w, fs, h, m, i) && (i.CallFn? || i.CallStatic?) && Has(w, k)
    requires Result(w, fs, h, i) == IrSemantics.Enter(k, ws) && PushRoom(m, PushedWords(RecvOf(w.p), i))
    requires CodeAt(w.code, m.rip, CallPlace(AllocOf(w, IrSemantics.Top(fs)).loc, RecvOf(w.p), i), CtxOf(w,
        IrSemantics.Top(fs).fidx))
    ensures AboutToCall(w, fs, m, i, k, ws, m, m1)
  {
    hide CodeAt, SizeAll, Ready, Related, Star, PlaceArgs, Placed, Waiting, IrSemantics.Values, PushRoom, CtxOf;
    var loc := AllocOf(w, IrSemantics.Top(fs)).loc;
    var vs := IrSemantics.Values(Env(fs), i.args).value;
    ArgsWait(w, fs, h, m, i, vs);
    var takes := i.CallStatic? && TakesReceiver(RecvOf(w.p), i.fidx);
    m1 := PlaceAny(w.code, CtxOf(w, IrSemantics.Top(fs).fidx), m, loc, takes, i.args, vs);
  }

  lemma IndirectArgs(w: World, fs: seq<Frame>, h: Heap, m: M, i: Instr, k: nat, ws: seq<Word>) returns (m0: M, m1: M)
    requires Here(w, fs, h, m, i) && i.CallFnAddr? && Has(w, k)
    requires Result(w, fs, h, i) == IrSemantics.Enter(k, ws) && PushRoom(m, PushedWords(RecvOf(w.p), i))
    requires CodeAt(w.code, m.rip, CallPlace(AllocOf(w, IrSemantics.Top(fs)).loc, RecvOf(w.p), i), CtxOf(w,
        IrSemantics.Top(fs).fidx))
    ensures AboutToCall(w, fs, m, i, k, ws, m0, m1)
  {
    hide CodeAt, SizeAll, Ready, Related, Star, PlaceArgs, Placed, Waiting, IrSemantics.Values, PushRoom, CtxOf, Agree,
         HomeHolds, IrSemantics.FindAddr;
    var loc := AllocOf(w, IrSemantics.Top(fs)).loc;
    ArgsWait(w, fs, h, m, i, ws);
    OperandIsHome(w, fs, h, m, i, i.target);
    FoundAddr(w.p.addr, Env(fs)[i.target], k);
    m0, m1 := FetchAndPlace(w.code, CtxOf(w, IrSemantics.Top(fs).fidx), m, loc, L(w, fs, i.target),
        Env(fs)[i.target], i.args, ws);
  }

  lemma HeadCode(w: World, fs: seq<Frame>, h: Heap, m: M, i: Instr)
    requires Here(w, fs, h, m, i) && IrSemantics.IsCall(i)
    ensures var fr := IrSemantics.Top(fs);
            var place := CallPlace(AllocOf(w, fr).loc, RecvOf(w.p), i);
            && CodeAt(w.code, m.rip, place, CtxOf(w, fr.fidx))
            && CodeAt(w.code, m.rip + SizeAll(place), [CallAsm(i)], CtxOf(w, fr.fidx))
            && AtCall(w, fr) && ReturnAddr(w, fr) == m.rip + SizeAll(place) + Size(CallAsm(i))
  {
    hide CodeAt, SizeAll, Ready, Suspended, FrameTop, FrameRsp, LiveHomes, Unwound, PlaceArgs, StaticPlace, Get, CallTail,
         CodeAddr, InstrAsm, Cells, Separate, CtxOf;
    var fr := IrSemantics.Top(fs);
    var loc, recv := AllocOf(w, fr).loc, RecvOf(w.p);
    CodeIsHere(w, fs, h, m, i);
    CallSplit(loc, recv, i);
    Split2(w.code, m.rip, CallHead(loc, recv, i), CallTail(loc, i), CtxOf(w, fr.fidx));
    assert CallHead(loc, recv, i) == CallPlace(loc, recv, i) + [CallAsm(i)];
    Split2(w.code, m.rip, CallPlace(loc, recv, i), [CallAsm(i)], CtxOf(w, fr.fidx));
    One(CallAsm(i));
  }

  lemma TailIs(w: World, fr: Frame)
    requires AtCall(w, fr)
    ensures TailBytes(w, fr) == 8 * PushedWords(RecvOf(w.p), CallOf(w, fr))
  {
  }

  /** The room premise of a call covers its pushes. */
  lemma CallRoom(w: World, fs: seq<Frame>, h: Heap, m: M, i: Instr, k: nat, ws: seq<Word>)
    requires Here(w, fs, h, m, i) && IrSemantics.IsCall(i) && Has(w, k)
    requires w.lo <= FrameRsp(w, Entered(w, fs, k, ws))
    ensures PushRoom(m, PushedWords(RecvOf(w.p), i) + 1) && AtCall(w, IrSemantics.Top(fs))
    ensures TailBytes(w, IrSemantics.Top(fs)) == 8 * PushedWords(RecvOf(w.p), i)
  {
    hide CodeAt, SizeAll, Ready, Suspended, FrameTop, FrameRsp, LiveHomes, Unwound, CodeAddr, FrameBytes, Savers, TailBytes,
         Separate;
    Bounds(w);
    NewGeometry(w, fs, k, ws);
    TailIs(w, IrSemantics.Top(fs));
    FrameAligned(w, fs);
    CellsWithin(m.stack, w.lo, w.hi, m.regs[RSP] - 8 * (PushedWords(RecvOf(w.p), i) + 1), m.regs[RSP]);
  }

  lemma RoomLess(m: M, n: nat)
    requires PushRoom(m, n + 1)
    ensures PushRoom(m, n)
  {
  }

  lemma RoomAfter(m: M, m0: M, m1: M, n: nat, ws: seq<Word>)
    requires PushRoom(m, n + 1) && Agree(m0, m) && Placed(m0, m1, n, ws)
    ensures m1.regs[RSP] >= 8 && m1.regs[RSP] - 8 in m1.stack
  {
    hide ArgsAt;
    assert (m.regs[RSP] - 8 * (n + 1)) % 8 == 0;
    assert m.regs[RSP] - 8 * (n + 1) in m.stack;
  }

  lemma ReachCall(w: World, fs: seq<Frame>, h: Heap, m: M, i: Instr, k: nat, ws: seq<Word>) returns (m0: M, m1: M)
    requires Here(w, fs, h, m, i) && IrSemantics.IsCall(i) && Has(w, k)
    requires Result(w, fs, h, i) == IrSemantics.Enter(k, ws) && PushRoom(m, PushedWords(RecvOf(w.p), i) + 1)
    ensures AboutToCall(w, fs, m, i, k, ws, m0, m1)
  {
    hide CodeAt, SizeAll, Here, PushRoom, AboutToCall, Result, CallPlace, CallAsm, PushedWords, ReturnAddr, CtxOf, RecvOf,
         Ready;
    HeadCode(w, fs, h, m, i);
    RoomLess(m, PushedWords(RecvOf(w.p), i));
    if i.CallFnAddr? {
      m0, m1 := IndirectArgs(w, fs, h, m, i, k, ws);
    } else {
      m0 := m;
      m1 := DirectArgs(w, fs, h, m, i, k, ws);
    }
  }

  lemma EnterResult(w: World, fs: seq<Frame>, h: Heap, i: Instr, k: nat, ws: seq<Word>)
    requires Ready(w) && fs != [] && Result(w, fs, h, i) == IrSemantics.Enter(k, ws)
    ensures IrSemantics.IsCall(i) && Has(w, k) && |ws| == Incoming(w.p.funcs[k])
  {
    hide FnOk, IrSemantics.Values, IrSemantics.FindAddr;
  }

  lemma TargetsGo(w: World, fs: seq<Frame>, i: Instr, m1: M, k: nat)
    requires fs != [] && InWorld(w, IrSemantics.Top(fs)) && IrSemantics.IsCall(i) && Has(w, k) && Targets(w, i, m1, k)
    ensures GoesTo(CtxOf(w, IrSemantics.Top(fs).fidx), CallAsm(i), m1, w.p.addr[k])
  {
  }

  lemma TakeCall(w: World, fs: seq<Frame>, h: Heap, m: M, i: Instr, k: nat, ws: seq<Word>, m0: M, m1: M) returns (m2: M)
    requires Here(w, fs, h, m, i) && IrSemantics.IsCall(i) && Has(w, k) && AboutToCall(w, fs, m, i, k, ws, m0, m1)
    requires m1.regs[RSP] >= 8 && m1.regs[RSP] - 8 in m1.stack
    ensures AtCall(w, IrSemantics.Top(fs)) && Plus(w.code, m1, m2)
    ensures Called(m1, m2, w.p.addr[k], ReturnAddr(w, IrSemantics.Top(fs)))
  {
    hide CodeAt, SizeAll, Related, Star, Plus, Placed, Called, ReturnAddr, Agree, CallPlace, Ready, GoesTo, CallAsm, CtxOf,
         Size, Targets, CodeAddr, AtCall, IrSemantics.IsCall;
    HeadCode(w, fs, h, m, i);
    ReturnAddrFits(w, IrSemantics.Top(fs));
    TargetsGo(w, fs, i, m1, k);
    m2 := CallRuns(w.code, CtxOf(w, IrSemantics.Top(fs).fidx), m1, CallAsm(i), w.p.addr[k]);
  }

  lemma MakeCall(w: World, fs: seq<Frame>, h: Heap, m: M, i: Instr, k: nat, ws: seq<Word>) returns (m2: M)
    requires Here(w, fs, h, m, i) && Result(w, fs, h, i) == IrSemantics.Enter(k, ws)
    requires Has(w, k) && w.lo <= FrameRsp(w, Entered(w, fs, k, ws))
    ensures Plus(w.code, m, m2) && Entering(w, fs, k, ws, m2) && m2.heap == h
  {
    hide CodeAt, SizeAll, Related, Star, Plus, Placed, PushRoom, Result, Entering, Called, FrameRsp, ReturnAddr, Agree,
         CallPlace, Ready, TailBytes, Entered, Targets;
    EnterResult(w, fs, h, i, k, ws);
    CallRoom(w, fs, h, m, i, k, ws);
    var m0, m1 := ReachCall(w, fs, h, m, i, k, ws);
    RoomAfter(m, m0, m1, PushedWords(RecvOf(w.p), i), ws);
    var m2' := TakeCall(w, fs, h, m, i, k, ws, m0, m1);
    StarPlus(w.code, m, m1, m2');
    Arrives(w, fs, h, m, i, k, ws, m0, m1, m2', PushedWords(RecvOf(w.p), i));
    m2 := m2';
  }

  /** A call leads to the callee's first instruction, where the machine represents
      the callee's first state exactly when the arguments are harmless. */
  lemma StepCall(w: World, fs: seq<Frame>, h: Heap, m: M, i: Instr, k: nat, ws: seq<Word>) returns (m': M)
    requires Here(w, fs, h, m, i) && Result(w, fs, h, i) == IrSemantics.Enter(k, ws)
    requires Has(w, k) && w.lo <= FrameRsp(w, Entered(w, fs, k, ws))
    ensures Plus(w.code, m, m') && InWorld(w, NewFrame(w, k, ws)) && m'.rip == CodeAddr(w, NewFrame(w, k, ws))
    ensures Related(w, Entered(w, fs, k, ws), h, m') <==> Harmless(w.p.funcs[k], ws)
  {
    hide CodeAt, Related, Star, Plus, Result, Entering, FrameRsp, Entered, FnOk, Harmless, CodeAddr;
    EnterResult(w, fs, h, i, k, ws);
    var m2 := MakeCall(w, fs, h, m, i, k, ws);
    m' := PrologueRuns(w, fs, k, ws, h, m2);
    PlusStar(w.code, m, m2, m');
  }

  // ---------- every step ----------

  /** The stack region is large enough for the frames of a running state. */
  ghost predicate Roomy(w: World, s: IrSemantics.State) {
    s.Running? && s.frames != [] ==> w.lo <= FrameRsp(w, s.frames)
  }

  /** The next step meets none of the two defects: a call whose prologue loses a live
      parameter, and a return from a static call that removes less than it pushes. */
  ghost predicate Safe(w: World, s: IrSemantics.State) {
    s.Running? && s.frames != [] && InWorld(w, IrSemantics.Top(s.frames)) ==>
      var fr := IrSemantics.Top(s.frames);
      match IrSemantics.InstrOf(w.p, fr)
      case Some(i) => forall k: nat, ws :: Result(w, s.frames, s.heap, i) == IrSemantics.Enter(k, ws) && k < |w.p.funcs| ==>
                        Harmless(w.p.funcs[k], ws)
      case None => FnOf(w, fr).blocks[fr.block].term.Ret? && |s.frames| > 1 ==>
                     PendingFits(w, IrSemantics.Top(IrSemantics.Rest(s.frames)))
  }

  lemma PlusIsStar(code: Code, a: M, b: M)
    requires Plus(code, a, b)
    ensures Star(code, a, b)
  {
  }

  /** `m'` represents the running state `s'`, and either the machine moved or the
      program only advanced inside a block. */
  ghost predicate Moves(w: World, fs: seq<Frame>, m: M, s': IrSemantics.State, m': M)
    requires fs != [] && s'.Running?
  {
    && Related(w, s'.frames, s'.heap, m') && Star(w.code, m, m')
    && (Plus(w.code, m, m') || IrSemantics.Top(s'.frames).pos == IrSemantics.Top(fs).pos + 1)
  }

  lemma InstrMoves(w: World, fs: seq<Frame>, h: Heap, m: M, i: Instr) returns (m': M)
    requires Here(w, fs, h, m, i) && IrSemantics.Step(w.p, IrSemantics.Running(fs, h)).Running?
    requires Safe(w, IrSemantics.Running(fs, h)) && Roomy(w, IrSemantics.Step(w.p, IrSemantics.Running(fs, h)))
    ensures Moves(w, fs, m, IrSemantics.Step(w.p, IrSemantics.Running(fs, h)), m')
  {
    hide CodeAt, SizeAll, Related, Ready, Star, Plus, IrSemantics.EvalInstr, FrameRsp, Harmless;
    var s' := IrSemantics.Step(w.p, IrSemantics.Running(fs, h));
    match Result(w, fs, h, i) {
      case Set(d, x) => m' := StepSet(w, fs, h, m, i, d, x);
      case Mem(h') => m' := StepMem(w, fs, h, m, i, h');
      case Enter(k, ws) =>
        EnterResult(w, fs, h, i, k, ws);
        assert s' == IrSemantics.Running(Entered(w, fs, k, ws), h);
        m' := StepCall(w, fs, h, m, i, k, ws);
        PlusIsStar(w.code, m, m');
    }
  }

  lemma ReturnMoves(w: World, fs: seq<Frame>, h: Heap, m: M, r: Option<VReg>) returns (m': M)
    requires AtTerm(w, fs, h, m, Terminator.Ret(r)) && IrSemantics.StepTerm(w.p, fs, h, Terminator.Ret(r)).Running?
    requires fs != [] && (|fs| > 1 ==> PendingFits(w, IrSemantics.Top(IrSemantics.Rest(fs))))
    ensures Plus(w.code, m, m')
    ensures var s' := IrSemantics.StepTerm(w.p, fs, h, Terminator.Ret(r)); Related(w, s'.frames, s'.heap, m')
  {
    hide CodeAt, SizeAll, Related, Ready, Plus, FnOk;
    m' := StepRet(w, fs, h, m, r, IrSemantics.RetValue(Env(fs), r).value);
  }

  lemma TermMoves(w: World, fs: seq<Frame>, h: Heap, m: M, t: Terminator) returns (m': M)
    requires AtTerm(w, fs, h, m, t) && IrSemantics.StepTerm(w.p, fs, h, t).Running?
    requires fs != [] && (t.Ret? && |fs| > 1 ==> PendingFits(w, IrSemantics.Top(IrSemantics.Rest(fs))))
    ensures Plus(w.code, m, m')
    ensures var s' := IrSemantics.StepTerm(w.p, fs, h, t); Related(w, s'.frames, s'.heap, m')
  {
    hide CodeAt, SizeAll, Related, Ready, Plus, IrSemantics.Resume, IrSemantics.RetValue;
    match t {
      case Ret(r) => m' := ReturnMoves(w, fs, h, m, r);
      case Branch(None, yes, no) => m' := StepJump(w, fs, h, m, yes, no);
      case Branch(Some(c), yes, no) => m' := StepBranch(w, fs, h, m, c, yes, no);
    }
  }

  lemma StepMoves(w: World, fs: seq<Frame>, h: Heap, m: M) returns (m': M)
    requires Ready(w) && Related(w, fs, h, m) && IrSemantics.Step(w.p, IrSemantics.Running(fs, h)).Running?
    requires Safe(w, IrSemantics.Running(fs, h)) && Roomy(w, IrSemantics.Step(w.p, IrSemantics.Running(fs, h)))
    ensures Moves(w, fs, m, IrSemantics.Step(w.p, IrSemantics.Running(fs, h)), m')
  {
    hide CodeAt, SizeAll, Suspended, Ready, FrameTop, FrameRsp, LiveHomes, Unwound, CodeAddr, Cells, Separate, Plus, Star,
         IrSemantics.StepTerm, IrSemantics.EvalInstr, Roomy;
    var fr := IrSemantics.Top(fs);
    match IrSemantics.InstrOf(w.p, fr) {
      case Some(i) => m' := InstrMoves(w, fs, h, m, i);
      case None =>
        m' := TermMoves(w, fs, h, m, FnOf(w, fr).blocks[fr.block].term);
        PlusIsStar(w.code, m, m');
    }
  }

  /** What the machine state `m` must be able to reach when the program is in state `s`. */
  ghost predicate Follows(w: World, m: M, s: IrSemantics.State) {
    match s
    case Running(fs, h) => exists m' :: Star(w.code, m, m') && Related(w, fs, h, m')
    case Returned(x, h) => exists m' :: Star(w.code, m, m') && Finished(w, x, h, m')
    case Exited(status, h) => Exits(w.code, m, status, h)
    case Stuck => true
  }

  lemma FollowsRunning(w: World, m: M, m': M, fs: seq<Frame>, h: Heap)
    requires Star(w.code, m, m') && Related(w, fs, h, m')
    ensures Follows(w, m, IrSemantics.Running(fs, h))
  {
  }

  lemma ReturnEnds(w: World, fs: seq<Frame>, h: Heap, m: M, r: Option<VReg>)
    requires AtTerm(w, fs, h, m, Terminator.Ret(r)) && !IrSemantics.StepTerm(w.p, fs, h, Terminator.Ret(r)).Running?
    ensures Follows(w, m, IrSemantics.StepTerm(w.p, fs, h, Terminator.Ret(r)))
  {
    hide CodeAt, SizeAll, Related, Ready, Star, Plus, FrameRsp, Finished, Exits, FnOk;
    var x := IrSemantics.RetValue(Env(fs), r);
    if x.Some? && |fs| == 1 {
      assert IrSemantics.Rest(fs) == [];
      var m' := StepLastRet(w, fs, h, m, r, x.value);
      PlusIsStar(w.code, m, m');
    }
  }

  lemma TermEnds(w: World, fs: seq<Frame>, h: Heap, m: M, t: Terminator)
    requires AtTerm(w, fs, h, m, t) && !IrSemantics.StepTerm(w.p, fs, h, t).Running?
    ensures Follows(w, m, IrSemantics.StepTerm(w.p, fs, h, t))
  {
    hide CodeAt, SizeAll, Related, Ready, Star, Plus, FrameRsp, Exits, IrSemantics.Resume, IrSemantics.RetValue;
    match t {
      case Ret(r) => ReturnEnds(w, fs, h, m, r);
      case Exit => StepExit(w, fs, h, m);
      case ExitWith(v) => if v in Env(fs) { StepExitWith(w, fs, h, m, v); }
      case Branch(_, _, _) =>
      case Unwind(_) =>
      case Rethrow =>
    }
  }

  lemma StepEnds(w: World, fs: seq<Frame>, h: Heap, m: M)
    requires Ready(w) && Related(w, fs, h, m) && !IrSemantics.Step(w.p, IrSemantics.Running(fs, h)).Running?
    ensures Follows(w, m, IrSemantics.Step(w.p, IrSemantics.Running(fs, h)))
  {
    hide CodeAt, SizeAll, Suspended, Ready, FrameTop, FrameRsp, LiveHomes, Unwound, CodeAddr, Cells, Separate, Follows,
         IrSemantics.StepTerm, IrSemantics.EvalInstr;
    var fr := IrSemantics.Top(fs);
    if IrSemantics.InstrOf(w.p, fr).None? {
      TermEnds(w, fs, h, m, FnOf(w, fr).blocks[fr.block].term);
    } else {
      FollowsStuck(w, m);
    }
  }

  lemma FollowsStuck(w: World, m: M)
    ensures Follows(w, m, IrSemantics.Stuck)
  {
  }

  /** One step of the program is followed by the machine. */
  lemma StepFollowed(w: World, fs: seq<Frame>, h: Heap, m: M)
    requires Ready(w) && Related(w, fs, h, m) && Safe(w, IrSemantics.Running(fs, h))
    requires Roomy(w, IrSemantics.Step(w.p, IrSemantics.Running(fs, h)))
    ensures Follows(w, m, IrSemantics.Step(w.p, IrSemantics.Running(fs, h)))
  {
    hide CodeAt, Related, Ready, Star, Plus, Follows, IrSemantics.Step, Roomy;
    HasFrames(w, fs, h, m);
    var s' := IrSemantics.Step(w.p, IrSemantics.Running(fs, h));
    if s'.Running? {
      var m' := StepMoves(w, fs, h, m);
      FollowsRunning(w, m, m', s'.frames, s'.heap);
    } else {
      StepEnds(w, fs, h, m);
    }
  }

  lemma HasFrames(w: World, fs: seq<Frame>, h: Heap, m: M)
    requires Related(w, fs, h, m)
    ensures fs != [] && InWorld(w, IrSemantics.Top(fs))
  {
  }

  // ---------- every run ----------

  /** `n` steps of a program, fewer if it ends. */
  function RunIr(p: IrSemantics.Prog, s: IrSemantics.State, n: nat): IrSemantics.State
    decreases n
  {
    if n == 0 || !s.Running? then s else RunIr(p, IrSemantics.Step(p, s), n - 1)
  }

  /** Every state of the run has room. */
  ghost predicate RoomyRun(w: World, s: IrSemantics.State, n: nat)
    decreases n
  {
    Roomy(w, s) && (n > 0 && s.Running? ==> RoomyRun(w, IrSemantics.Step(w.p, s), n - 1))
  }

  /** No step of the run meets one of the defects. */
  ghost predicate SafeRun(w: World, s: IrSemantics.State, n: nat)
    decreases n
  {
    n > 0 && s.Running? ==> Safe(w, s) && SafeRun(w, IrSemantics.Step(w.p, s), n - 1)
  }

  /** A program without them: its static calls fit, and no function's last parameter
      takes a live parameter's home. */
  ghost predicate Sound(fs: seq<Func>) {
    forall k :: 0 <= k < |fs| ==> LastAlone(fs[k]) && CallsFit(fs, fs[k])
  }

  ghost predicate CallsFit(fs: seq<Func>, f: Func) {
    forall b, i :: 0 <= b < |f.blocks| && 0 <= i < |f.blocks[b].instrs| ==>
      StaticFits(IrSemantics.Prog(fs, []), f.blocks[b].instrs[i])
  }

  lemma SoundStep(w: World, s: IrSemantics.State)
    requires Sound(w.p.funcs)
    ensures Safe(w, s)
  {
    hide LastAlone, Harmless;
    if s.Running? && s.frames != [] && InWorld(w, IrSemantics.Top(s.frames)) {
      forall k: nat, ws, i | IrSemantics.InstrOf(w.p, IrSemantics.Top(s.frames)) == Some(i) && k < |w.p.funcs|
                        && Result(w, s.frames, s.heap, i) == IrSemantics.Enter(k, ws)
        ensures Harmless(w.p.funcs[k], ws)
      {
        AloneExactly(w.p.funcs[k]);
      }
      if |s.frames| > 1 { SoundCall(w, IrSemantics.Top(IrSemantics.Rest(s.frames))); }
    }
  }

  lemma SoundCall(w: World, fr: Frame)
    requires Sound(w.p.funcs)
    ensures PendingFits(w, fr)
  {
    hide LastAlone;
    if AtCall(w, fr) {
      assert CallsFit(w.p.funcs, w.p.funcs[fr.fidx]);
      assert RecvOf(IrSemantics.Prog(w.p.funcs, [])) == RecvOf(w.p);
      assert StaticFits(IrSemantics.Prog(w.p.funcs, []), w.p.funcs[fr.fidx].blocks[fr.block].instrs[fr.pos]);
    }
  }

  /** Every run of such a program is safe. */
  lemma {:induction false} SoundRuns(w: World, s: IrSemantics.State, n: nat)
    requires Sound(w.p.funcs)
    ensures SafeRun(w, s, n)
    decreases n
  {
    hide Sound, Safe, IrSemantics.Step;
    if n > 0 && s.Running? {
      SoundStep(w, s);
      SoundRuns(w, IrSemantics.Step(w.p, s), n - 1);
    }
  }

  lemma ExitsFrom(code: Code, a: M, b: M, status: Word, h: Heap)
    requires Star(code, a, b) && Exits(code, b, status, h)
    ensures Exits(code, a, status, h)
  {
    var n: nat :| Steps(code, a, n) == Go(b);
    var k: nat :| Steps(code, b, k) == Machine.Exited(status, h);
    StepsAdd(code, a, b, n, k);
  }

  lemma FollowsFrom(w: World, a: M, b: M, s: IrSemantics.State)
    requires Star(w.code, a, b) && Follows(w, b, s)
    ensures Follows(w, a, s)
  {
    hide Star, Related, Finished, Exits;
    match s {
      case Running(fs, h) =>
        var m' :| Star(w.code, b, m') && Related(w, fs, h, m');
        StarTrans(w.code, a, b, m');
      case Returned(x, h) =>
        var m' :| Star(w.code, b, m') && Finished(w, x, h, m');
        StarTrans(w.code, a, b, m');
      case Exited(status, h) => ExitsFrom(w.code, a, b, status, h);
      case Stuck =>
    }
  }

  /** From related states, the machine follows the program for any number of steps. */
  lemma {:induction false} RunFollowed(w: World, fs: seq<Frame>, h: Heap, m: M, n: nat)
    requires Ready(w) && Related(w, fs, h, m)
    requires RoomyRun(w, IrSemantics.Running(fs, h), n) && SafeRun(w, IrSemantics.Running(fs, h), n)
    ensures Follows(w, m, RunIr(w.p, IrSemantics.Running(fs, h), n))
    decreases n
  {
    hide CodeAt, Related, Ready, Star, IrSemantics.Step, Roomy, FrameRsp, Finished, Exits;
    if n == 0 {
      StarRefl(w.code, m);
      FollowsRunning(w, m, m, fs, h);
    } else {
      var s' := IrSemantics.Step(w.p, IrSemantics.Running(fs, h));
      RoomyNext(w, IrSemantics.Running(fs, h), n);
      StepFollowed(w, fs, h, m);
      if s'.Running? {
        var m' :| Star(w.code, m, m') && Related(w, s'.frames, s'.heap, m');
        RunFollowed(w, s'.frames, s'.heap, m', n - 1);
        FollowsFrom(w, m, m', RunIr(w.p, s', n - 1));
      }
    }
  }

  lemma RoomyNext(w: World, s: IrSemantics.State, n: nat)
    requires RoomyRun(w, s, n) && n > 0 && s.Running?
    ensures RoomyRun(w, IrSemantics.Step(w.p, s), n - 1) && Roomy(w, IrSemantics.Step(w.p, s))
  {
  }

  /** Calling function `k` of a linked program: for every run of the program from
      that call, the emitted code reaches the corresponding state; if the program
      returns, so does the code, with the same value and memory and with rsp, every
      callee-saved register and the stack above as the outside caller left them. */
  lemma ProgramFollowed(w: World, k: nat, args: seq<Word>, m: M, n: nat)
    requires Ready(w) && Has(w, k) && Entering(w, [], k, args, m) && Harmless(w.p.funcs[k], args)
    requires var s := IrSemantics.Running([NewFrame(w, k, args)], m.heap); RoomyRun(w, s, n) && SafeRun(w, s, n)
    ensures Follows(w, m, RunIr(w.p, IrSemantics.Running([NewFrame(w, k, args)], m.heap), n))
  {
    hide CodeAt, Related, Ready, Star, IrSemantics.Step, FrameRsp, Entering, Follows, RunIr;
    assert Entered(w, [], k, args) == [NewFrame(w, k, args)];
    var m' := PrologueRuns(w, [], k, args, m.heap, m);
    RunFollowed(w, [NewFrame(w, k, args)], m.heap, m', n);
    FollowsFrom(w, m, m', RunIr(w.p, IrSemantics.Running([NewFrame(w, k, args)], m.heap), n));
  }

  // ---------- runs that do not end ----------

  /** No block is longer than `bound`. */
  ghost predicate BlocksWithin(p: IrSemantics.Prog, bound: nat) {
    forall k, b :: 0 <= k < |p.funcs| && 0 <= b < |p.funcs[k].blocks| ==> |p.funcs[k].blocks[b].instrs| <= bound
  }

  /** `b` is reached from `a` in at least `c` steps. */
  ghost predicate Late(code: Code, a: M, b: M, c: nat) { exists n: nat :: n >= c && Steps(code, a, n) == Go(b) }

  lemma LateAfter(code: Code, a: M, b: M, d: M, c: nat)
    requires Star(code, a, b) && Late(code, b, d, c)
    ensures Late(code, a, d, c)
  {
    var n: nat :| Steps(code, a, n) == Go(b);
    var k: nat :| k >= c && Steps(code, b, k) == Go(d);
    StepsAdd(code, a, b, n, k);
  }

  lemma LaterAfter(code: Code, a: M, b: M, d: M, c: nat)
    requires Plus(code, a, b) && Late(code, b, d, c)
    ensures Late(code, a, d, c + 1)
  {
    var n: nat :| n > 0 && Steps(code, a, n) == Go(b);
    var k: nat :| k >= c && Steps(code, b, k) == Go(d);
    StepsAdd(code, a, b, n, k);
  }

  lemma PosWithin(w: World, fs: seq<Frame>, h: Heap, m: M, bound: nat)
    requires Related(w, fs, h, m) && BlocksWithin(w.p, bound)
    ensures fs != [] && IrSemantics.Top(fs).pos <= bound
  {
    hide FramesOk, LiveHomes;
    HasFrames(w, fs, h, m);
  }

  lemma LateStart(code: Code, m: M)
    ensures Late(code, m, m, 0)
  {
    assert Steps(code, m, 0) == Go(m);
  }

  lemma RunNext(p: IrSemantics.Prog, s: IrSemantics.State, n: nat)
    requires n > 0 && s.Running?
    ensures RunIr(p, s, n) == RunIr(p, IrSemantics.Step(p, s), n - 1)
    ensures RunIr(p, s, n).Running? ==> IrSemantics.Step(p, s).Running?
  {
  }

  /** A program that runs on keeps the machine running: while blocks have at most
      `bound` instructions, every `bound + 1` program steps cost the machine one. */
  lemma {:induction false} RunsOn(w: World, fs: seq<Frame>, h: Heap, m: M, n: nat, bound: nat, c: nat) returns (m': M)
    requires Ready(w) && Related(w, fs, h, m)
    requires RoomyRun(w, IrSemantics.Running(fs, h), n) && SafeRun(w, IrSemantics.Running(fs, h), n)
    requires BlocksWithin(w.p, bound) && fs != [] && IrSemantics.Top(fs).pos + n >= c * (bound + 1)
    requires RunIr(w.p, IrSemantics.Running(fs, h), n).Running?
    ensures Late(w.code, m, m', c)
    ensures var s := RunIr(w.p, IrSemantics.Running(fs, h), n); Related(w, s.frames, s.heap, m')
    decreases n
  {
    hide CodeAt, Related, Ready, Star, Plus, IrSemantics.Step, Roomy, Late, RunIr, BlocksWithin, RoomyRun;
    PosWithin(w, fs, h, m, bound);
    if n == 0 {
      if c > 0 { CountBound(c, bound); }
      LateStart(w.code, m);
      RunZero(w.p, IrSemantics.Running(fs, h));
      m' := m;
    } else {
      var s' := IrSemantics.Step(w.p, IrSemantics.Running(fs, h));
      RoomyNext(w, IrSemantics.Running(fs, h), n);
      RunNext(w.p, IrSemantics.Running(fs, h), n);
      var m1 := StepMoves(w, fs, h, m);
      PosWithin(w, s'.frames, s'.heap, m1, bound);
      if IrSemantics.Top(s'.frames).pos == IrSemantics.Top(fs).pos + 1 || c == 0 {
        m' := RunsOn(w, s'.frames, s'.heap, m1, n - 1, bound, c);
        LateAfter(w.code, m, m1, m', c);
      } else {
        CountStep(c, bound);
        m' := RunsOn(w, s'.frames, s'.heap, m1, n - 1, bound, c - 1);
        LaterAfter(w.code, m, m1, m', c - 1);
      }
    }
  }

  lemma RunZero(p: IrSemantics.Prog, s: IrSemantics.State)
    ensures RunIr(p, s, 0) == s
  {
  }

  lemma CountBound(c: nat, bound: nat)
    requires c > 0
    ensures c * (bound + 1) >= bound + 1
  {
  }

  lemma CountStep(c: nat, bound: nat)
    requires c > 0
    ensures (c - 1) * (bound + 1) == c * (bound + 1) - (bound + 1)
  {
  }
}
