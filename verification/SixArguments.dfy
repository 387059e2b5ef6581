/** A receiver-taking static call with six arguments: the caller's own epilogue
    then hands its caller the wrong rbx and r12. */
module SixArguments {
  import opened Ir
  import opened Words
  import opened Liveness
  import opened Intervals
  import LS = LinearScan
  import opened Locations
  import opened RegAlloc
  import opened Machine
  import opened Emission
  import opened Execution
  import opened Frames
  import opened Relation
  import opened Calls
  import I = Instructions
  import E = Entry
  import opened Correctness
  import opened CallShift
  import opened Encoding
  import opened Patching
  import opened Layout
  import opened Linker
  import opened Compiled
  import opened Convention

  const CALL := CallStatic(0, 1, [1, 1, 1, 1, 1, 1])

  /** `x = 7; return callee(null, x, x, x, x, x, x);` */
  const CALLER := Func(false, 0, 2, [Block([Const(1, 7), CALL], Terminator.Ret(Some(0)))])

  lemma CallerInstrs(n: nat, i: Instr)
    requires n > 1 && (i == Const(1, 7) || i == CALL)
    ensures Supported(i) && ShortArgs(i) && Names(i, n)
  {
  }

  lemma CallerPoints(p: Point)
    requires IsPoint(CALLER, p)
    ensures p in [Point(0, 0), Point(0, 1), Point(0, 2)]
  {
  }

  lemma CallerWellFormed()
    ensures WellFormed(CALLER)
  {
    forall p, v | IsPoint(CALLER, p) && (v in UsesAt(CALLER, p) || v in DefsAt(CALLER, p))
      ensures v < 2
    {
      CallerPoints(p);
    }
  }

  /** It meets the compiler's premises in any program with a function 1. */
  lemma CallerAccepted(n: nat)
    requires n > 1
    ensures WellFormed(CALLER) && Compact(CALLER, n) && CALLER.blocks != [] && Plain(CALLER)
  {
    hide WellFormed, Supported, ShortArgs, Names, LIMIT;
    CallerWellFormed();
    forall b, i | 0 <= b < |CALLER.blocks| && 0 <= i < |CALLER.blocks[b].instrs|
      ensures var ins := CALLER.blocks[b].instrs[i]; Supported(ins) && ShortArgs(ins) && Names(ins, n)
    {
      CallerInstrs(n, CALLER.blocks[b].instrs[i]);
    }
    assert CALLER.vregs <= LIMIT by { SmallEnough(); }
  }

  lemma SmallEnough()
    ensures 2 <= LIMIT
  {
  }

  // ---------- its allocation ----------

  lemma Mentioned(v: VReg)
    requires v < 2
    ensures Mentions(CALLER, Point(0, 0), v) <==> v == 1
    ensures Mentions(CALLER, Point(0, 1), v)
    ensures Mentions(CALLER, Point(0, 2), v) <==> v == 0
  {
    if v == 1 { assert 1 in [1, 1, 1, 1, 1, 1]; }
  }

  lemma ResultIsLive()
    ensures LiveAt(CALLER, Point(0, 0), 0)
  {
    var p := [Point(0, 0), Point(0, 1)];
    assert Liveness.Linked(CALLER, p, 0);
    assert UsePath(CALLER, 0, p);
  }

  lemma CallerTouches(v: VReg, r: Option<Span>)
    requires v < 2
    ensures CodeSpan(CALLER, 0, 3, v, r) == Touch(Touch(Touch(r, v == 1, 0), true, 1), v == 0, 2)
  {
    hide Touch, Mentions;
    Mentioned(v);
    assert Intervals.Entry(CALLER, 0) == 0 && CodeSpan(CALLER, 0, 0, v, r) == r;
    assert CodeSpan(CALLER, 0, 1, v, r) == Touch(r, v == 1, 0);
    assert CodeSpan(CALLER, 0, 2, v, r) == Touch(CodeSpan(CALLER, 0, 1, v, r), true, 1);
  }

  lemma CallerSpan(v: VReg)
    requires v < 2
    ensures SpanOf(CALLER, v) == Span(0, if v == 0 then 2 else 1)
  {
    hide CodeSpan, LiveAt, IsPath;
    ResultIsLive();
    var ins, outs := LiveIns(CALLER), LiveOuts(CALLER);
    assert !LiveOutOf(CALLER, 0, v) && v !in outs[0];
    assert Intervals.Entry(CALLER, 0) == 0;
    assert SpanUpTo(CALLER, ins, outs, 0, v) == None;
    CallerTouches(v, EdgeSpan(CALLER, 0, v in ins[0], false, None));
  }

  const A := LS.Range(1, 0, 1)
  const B := LS.Range(0, 0, 2)

  lemma CallerOrder()
    ensures LS.Ordered(SpansOf(CALLER), 2) == [A, B]
  {
    hide SpanOf;
    CallerSpan(0);
    CallerSpan(1);
    var m := SpansOf(CALLER);
    assert m[0] == Span(0, 2) && m[1] == Span(0, 1);
    assert LS.Ordered(m, 1) == [B] by { assert LS.Ordered(m, 0) == []; }
  }

  const S1 := LS.State([UNPLACED, Reg(Rbx)], 0, [1, 2, 3, 4], [LS.Active(1, 0, 1)])
  const S2 := LS.State([Reg(R12), Reg(Rbx)], 0, [2, 3, 4], [LS.Active(1, 0, 1), LS.Active(2, 1, 0)])

  lemma StepA()
    ensures LS.Sane(LS.Start(2)) && LS.StepOf(LS.Start(2), A) == S1
  {
  }

  lemma StepB()
    ensures LS.Sane(S1) && LS.StepOf(S1, B) == S2
  {
    assert LS.ExpireFrom(S1, 0, 0) == LS.ExpireFrom(S1, 0, 1) == S1;
  }

  const HOMES := Allocation([Reg(R12), Reg(Rbx)], 0)

  lemma CallerHomes()
    ensures Homes(CALLER) == HOMES
  {
    hide SpanOf, SpansOf, LS.Ordered, LS.StepOf, LS.Sane, LS.Start;
    CallerOrder();
    StepA();
    StepB();
    var rs := [A, B];
    assert LS.ScanFrom(2, rs, 0) == LS.Start(2);
    assert LS.ScanFrom(2, rs, 1) == S1;
    assert LS.ScanFrom(2, rs, 2) == S2;
  }

  const SAVED: seq<Phys> := [Rbx, R12]

  lemma CallerSavers()
    ensures Savers(HOMES) == SAVED && FrameBytes(HOMES) == 8 && Distinct(SAVED)
  {
    assert SaverList(HOMES.loc, 1) == [Rbx] by { assert SaverList(HOMES.loc, 0) == [] && HOMES.loc[1] == Reg(Rbx); }
    assert SaverList(HOMES.loc, 2) == SAVED by { assert HOMES.loc[0] == Reg(R12); }
    assert SaverList(HOMES.loc, 3) == SAVED;
    assert SaverList(HOMES.loc, 4) == SAVED;
    assert SaverList(HOMES.loc, 5) == SAVED;
    assert SAVED[1..] == [R12] && [R12][1..] == [];
  }

  // ---------- its code ----------

  function Setup(): seq<Asm> { [Push(RBP, false)] + [MovRR(RBP, RSP)] + Reserve(8) + PushSavers(SAVED) }
  function Before(recv: seq<bool>): seq<Asm> { ConstAsm(Reg(Rbx), 7) + CallHead(HOMES.loc, recv, CALL) }
  function After(): seq<Asm> { CallTail(HOMES.loc, CALL) + (Get(RAX, Reg(R12)) + Epilogue(HOMES)) }

  lemma CallerCode(recv: seq<bool>)
    ensures FnAsm(CALLER, HOMES, recv) == Setup() + (Before(recv) + After())
  {
    hide CallHead, CallTail, Epilogue, PushSavers, InstrAsm, Savers, FrameBytes;
    CallerSavers();
    CallSplit(HOMES.loc, recv, CALL);
    ConstIs(recv);
    var first, call := ConstAsm(Reg(Rbx), 7), CallHead(HOMES.loc, recv, CALL) + CallTail(HOMES.loc, CALL);
    assert [Const(1, 7), CALL][1..] == [CALL] && [CALL][1..] == [];
    assert InstrsAsm(HOMES.loc, recv, []) == [];
    assert InstrsAsm(HOMES.loc, recv, [CALL]) == call + [] == call;
    assert InstrsAsm(HOMES.loc, recv, [Const(1, 7), CALL]) == first + call;
    assert CALLER.blocks[1..] == [] && BlocksAsm(HOMES, recv, []) == [];
    assert [Push(RBP, false), MovRR(RBP, RSP)] == [Push(RBP, false)] + [MovRR(RBP, RSP)];
    var term := Get(RAX, Reg(R12)) + Epilogue(HOMES);
    assert BlocksAsm(HOMES, recv, CALLER.blocks) == (first + call) + term;
    assert (first + call) + term == Before(recv) + After();
  }

  lemma ConstIs(recv: seq<bool>)
    ensures InstrAsm(HOMES.loc, recv, Const(1, 7)) == ConstAsm(Reg(Rbx), 7)
  {
  }

  // ---------- its run ----------

  const ARGS: seq<Word> := [7, 7, 7, 7, 7, 7]

  /** A machine about to run the caller's first instruction, called with room below. */
  ghost predicate Started(code: Code, ctx: Ctx, recv: seq<bool>, m: M, top: int) {
    && |recv| > 1 && recv[1] && |ctx.fn| > 1
    && CodeAt(code, m.rip, FnAsm(CALLER, Homes(CALLER), recv), ctx)
    && 0 <= m.rip < m.rip + SizeAll(FnAsm(CALLER, Homes(CALLER), recv)) < B64
    && m.regs[RSP] == top - 8 && top % 8 == 0 && 56 <= top < B64 && Cells(m.stack, top - 56, top)
  }

  /** The address after the call. */
  function Back(recv: seq<bool>, m: M): int { m.rip + SizeAll(Setup()) + SizeAll(Before(recv)) }

  /** The frame the prologue made, with the sixth argument pushed below it. */
  ghost predicate Pending(m: M, m0: M, m1: M, top: int) {
    && FrameMade0(m, m0, top) && Lowered(m0, m1, 1) && HasWord(m1.stack, top - 48, 7)
  }

  ghost predicate FrameMade0(m: M, m0: M, top: int) {
    && m0.regs[RBP] == top - 16 && m0.regs[RSP] == top - 40 && m0.stack.Keys == m.stack.Keys && m0.heap == m.heap
    && m0.stack == Saved(m.stack[top - 16 := m.regs[RBP]], m.regs, top - 24, SAVED)
  }

  lemma SetupRuns(code: Code, ctx: Ctx, m: M, top: int) returns (m0: M)
    requires CodeAt(code, m.rip, Setup() + ConstAsm(Reg(Rbx), 7), ctx)
    requires m.regs[RSP] == top - 8 && top % 8 == 0 && 56 <= top < B64 && Cells(m.stack, top - 56, top)
    ensures Star(code, m, m0) && m0.rip == m.rip + SizeAll(Setup() + ConstAsm(Reg(Rbx), 7))
    ensures FrameMade0(m, m0, top) && m0.regs[PhysId(Rbx)] == 7
  {
    hide CodeAt, SizeAll, Star, PushSavers, ConstAsm, Saved;
    Split2(code, m.rip, Setup(), ConstAsm(Reg(Rbx), 7), ctx);
    var e := E.EnterRuns(code, ctx, m, top, 8, SAVED);
    E.MadeKeys(m, e, top, 8, SAVED);
    m0 := I.RunConst(code, ctx, e, Reg(Rbx), 7);
    StarTrans(code, m, e, m0);
    assert !Scratch(RSP) && !Scratch(RBP) && !Scratch(PhysId(Rbx));
  }

  /** At the call everything the call needs is there. */
  lemma ReadyToCall(recv: seq<bool>, m: M, m0: M, top: int)
    requires |recv| > 1 && recv[1] && FrameMade0(m, m0, top) && m0.regs[PhysId(Rbx)] == 7
    requires top % 8 == 0 && 56 <= top && Cells(m.stack, top - 56, top)
    ensures Callable(m0, HOMES.loc, recv, CALL, ARGS, 0) && PushedWords(recv, CALL) == 1
  {
    hide Saved;
  }

  lemma Enters(code: Code, ctx: Ctx, recv: seq<bool>, m: M, top: int) returns (m0: M, m1: M, m2: M)
    requires Started(code, ctx, recv, m, top)
    ensures Star(code, m, m2) && Pending(m, m0, m1, top) && E.Called(m1, m2, ctx.fn[1], Back(recv, m))
    ensures ArgsAt(m1, m1.regs[RSP], [0] + ARGS)
    ensures Callable(m0, HOMES.loc, recv, CALL, ARGS, 0) && PushedWords(recv, CALL) == 1
    ensures CodeAt(code, Back(recv, m), After(), ctx)
  {
    hide CodeAt, SizeAll, Star, CallHead, CallTail, Epilogue, PushSavers, ConstAsm, FrameMade0, Callable, Lowered,
         PushedWords, Cells, ArgAt, Homes, Setup, FnAsm;
    CallerHomes();
    CallerCode(recv);
    var first := ConstAsm(Reg(Rbx), 7);
    var head := CallHead(HOMES.loc, recv, CALL);
    Split2(code, m.rip, Setup(), Before(recv) + After(), ctx);
    Split2(code, m.rip + SizeAll(Setup()), Before(recv), After(), ctx);
    Split2(code, m.rip + SizeAll(Setup()), first, head, ctx);
    assert Setup() + (Before(recv) + After()) == (Setup() + first) + (head + After());
    Split2(code, m.rip, Setup() + first, head + After(), ctx);
    SizeAppend(Setup(), first);
    m0 := SetupRuns(code, ctx, m, top);
    ReadyToCall(recv, m, m0, top);
    HeadFits(recv);
    m1, m2 := ReachesCallee(code, ctx, m0, HOMES.loc, recv, CALL, ARGS, 0, ctx.fn[1]);
    StarTrans(code, m, m0, m2);
    assert ArgAt(m1, m1.regs[RSP], [0] + ARGS, 6);
    SixthArg(m, m0, m1, top);
  }

  lemma HeadFits(recv: seq<bool>)
    ensures SizeAll(CallHead(HOMES.loc, recv, CALL)) > 0
  {
    hide StaticPlace;
    HeadIs(HOMES.loc, recv, CALL);
    SizeAppend(CallPlace(HOMES.loc, recv, CALL), [CallAsm(CALL)]);
    I.One(CallAsm(CALL));
  }

  lemma SixthArg(m: M, m0: M, m1: M, top: int)
    requires FrameMade0(m, m0, top) && Lowered(m0, m1, 1) && ArgAt(m1, m1.regs[RSP], [0] + ARGS, 6)
    ensures HasWord(m1.stack, top - 48, 7)
  {
    hide Saved, SameAbove;
  }

  /** What the caller's caller gets back: the right return address, rsp and rbp, the
      argument word in r12, and its own r12 in rbx. */
  predicate Spoiled(m: M, m': M, top: int) {
    && m'.rip == Cell(m.stack, top - 8) && m'.regs[RSP] == top && m'.regs[RBP] == m.regs[RBP]
    && m'.regs[PhysId(R12)] == 7 && m'.regs[PhysId(Rbx)] == m.regs[PhysId(R12)]
  }

  /** The frame's cells as the callee leaves them. */
  lemma CellsLeft(recv: seq<bool>, m: M, m0: M, m1: M, v: M, top: int)
    requires Pending(m, m0, m1, top) && Kept(m1, v, Back(recv, m)) && Cells(m.stack, top - 56, top) && top % 8 == 0
    ensures Cells(v.stack, top - 48, top) && v.regs[RBP] == top - 16
    ensures forall a :: top - 40 <= a < top - 24 ==>
              Cell(v.stack, a) == Cell(Saved(m.stack[top - 16 := m.regs[RBP]], m.regs, top - 24, SAVED), a)
    ensures Cell(v.stack, top - 48) == 7 && Cell(v.stack, top - 8) == Cell(m.stack, top - 8)
    ensures Cell(v.stack, top - 16) == m.regs[RBP]
  {
    hide Saved, Back;
    var s1 := m.stack[top - 16 := m.regs[RBP]];
    SavedCell(s1, m.regs, top - 24, SAVED, top - 8);
    SavedCell(s1, m.regs, top - 24, SAVED, top - 16);
  }

  lemma Leaves(code: Code, ctx: Ctx, recv: seq<bool>, m: M, m0: M, m1: M, v: M, top: int) returns (m': M)
    requires |recv| > 1 && recv[1] && 56 <= top < B64 && top % 8 == 0 && Cells(m.stack, top - 56, top)
    requires Pending(m, m0, m1, top) && Kept(m1, v, Back(recv, m)) && CodeAt(code, Back(recv, m), After(), ctx)
    requires Callable(m0, HOMES.loc, recv, CALL, ARGS, 0) && PushedWords(recv, CALL) == 1
    ensures Star(code, v, m') && Spoiled(m, m', top)
  {
    hide CodeAt, SizeAll, Star, CallTail, Epilogue, Callable, Lowered, PushedWords, Cells, Kept, Back, Saved, Restored,
         HasWord, Pending, FrameMade0;
    CallerSavers();
    CellsLeft(recv, m, m0, m1, v, top);
    PendingParts(m, m0, m1, top);
    Split2(code, Back(recv, m), CallTail(HOMES.loc, CALL), Get(RAX, Reg(R12)) + Epilogue(HOMES), ctx);
    var t := CallBalance(code, ctx, m0, HOMES.loc, recv, CALL, ARGS, 0, m1, v, Back(recv, m));
    Split2(code, t.rip, Get(RAX, Reg(R12)), Epilogue(HOMES), ctx);
    var g := RunGet(code, ctx, t, RAX, Reg(R12));
    assert !Scratch(RSP) && !Scratch(RBP);
    m' := ShiftedEpilogue(code, ctx, HOMES, g, top);
    var s1 := m.stack[top - 16 := m.regs[RBP]];
    ShiftedSavers(g.regs, m.regs, s1, v.stack, top - 24, SAVED, 0);
    ShiftedSavers(g.regs, m.regs, s1, v.stack, top - 24, SAVED, 1);
    StarTrans(code, v, t, g);
    StarTrans(code, v, g, m');
  }

  /** Just before the call: the sixth argument is on top of the caller's frame. */
  predicate OnePushed(m: M, m1: M, top: int) {
    m1.regs[RSP] == top - 48 && m1.stack.Keys == m.stack.Keys && m1.heap == m.heap
  }

  lemma PendingParts(m: M, m0: M, m1: M, top: int)
    requires Pending(m, m0, m1, top)
    ensures Lowered(m0, m1, 1) && m0.regs[RSP] == top - 40 && OnePushed(m, m1, top)
  {
  }

  /** The same, on the emitted code. */
  lemma CallerBreaks(code: Code, ctx: Ctx, recv: seq<bool>, m: M, top: int) returns (m1: M, m2: M)
    requires Started(code, ctx, recv, m, top)
    ensures Star(code, m, m2) && E.Called(m1, m2, ctx.fn[1], Back(recv, m)) && ArgsAt(m1, m1.regs[RSP], [0] + ARGS)
    ensures forall v :: Kept(m1, v, Back(recv, m)) ==> exists m' :: Star(code, v, m') && Spoiled(m, m', top)
    ensures OnePushed(m, m1, top)
  {
    hide CodeAt, SizeAll, Star, E.Called, ArgsAt, Kept, Spoiled, Cells, Callable, PushedWords, Back, After, Pending, Homes,
         FnAsm;
    var m0;
    m0, m1, m2 := Enters(code, ctx, recv, m, top);
    PendingParts(m, m0, m1, top);
    forall v | Kept(m1, v, Back(recv, m))
      ensures exists m' :: Star(code, v, m') && Spoiled(m, m', top)
    {
      var m' := Leaves(code, ctx, recv, m, m0, m1, v, top);
    }
  }

  lemma SpoiledPool(m: M, m': M, top: int)
    requires Spoiled(m, m', top) && SamePool(m.regs, m'.regs)
    ensures m.regs[PhysId(R12)] == 7 && m.regs[PhysId(Rbx)] == 7
  {
  }

  // ---------- its compiled bytes ----------

  /** Function `k` of an image is the caller, and has just been called with room below. */
  ghost predicate Begun(fs: seq<Func>, allocs: seq<Allocation>, addr: seq<Word>, base: int, image: Bytes, k: nat,
                        m: M, top: int) {
    && ImageOf(fs, allocs, addr, base, image) && k < |fs| && |fs| > 1
    && fs[k] == CALLER && fs[1].receiver && m.rip == addr[k]
    && m.regs[RSP] == top - 8 && top % 8 == 0 && 56 <= top < B64 && Cells(m.stack, top - 56, top)
  }

  lemma BegunIsStarted(fs: seq<Func>, allocs: seq<Allocation>, addr: seq<Word>, base: int, image: Bytes, k: nat,
                       m: M, top: int)
    requires Begun(fs, allocs, addr, base, image, k, m, top)
    ensures |allocs| == |fs| == |addr| && k < |fs|
    ensures Started(DecodeMap(image, base), FnCtx(fs, allocs, addr, k), Recv(fs), m, top)
    ensures FnCtx(fs, allocs, addr, k).fn == addr
  {
    hide CodeAt, SizeAll, FnAsm, DecodeMap, Cells, Enc, Linker.Linked, StartOf, WellFormed, AllocationOf, Homes, BlockOff,
         LIMIT, Accepted;
    FunctionPlaced(fs, allocs, addr, base, image, k);
    PieceEnds(fs, allocs, addr, base, image, k);
    CallerWellFormed();
    AllocationIs(CALLER, allocs[k]);
    NotEmpty(Recv(fs));
  }

  lemma NotEmpty(recv: seq<bool>)
    ensures SizeAll(FnAsm(CALLER, Homes(CALLER), recv)) > 0
  {
    hide CallHead, CallTail, PushSavers, Homes, FnAsm, Before, After, Setup, SizeAll;
    CallerHomes();
    CallerCode(recv);
    SizeAppend(Setup(), Before(recv) + After());
    SizeAppend(Before(recv), After());
    SetupFits();
  }

  lemma SetupFits()
    ensures SizeAll(Setup()) > 0
  {
    hide PushSavers, SizeAll;
    var rest := [MovRR(RBP, RSP)] + Reserve(8) + PushSavers(SAVED);
    assert Setup() == [Push(RBP, false)] + rest;
    SizeAppend([Push(RBP, false)], rest);
    I.One(Push(RBP, false));
  }

  /** Executing the bytes from `m` makes the call, `m1` being the machine before the
      call instruction; and whatever the callee then does, as long as it keeps the
      calling convention, they end with the caller's caller's r12 and rbx lost. */
  ghost predicate Breaks(image: Bytes, base: int, m: M, m1: M, m2: M, target: int, back: int, top: int) {
    && Reaches(image, base, m, m2) && E.Called(m1, m2, target, back) && ArgsAt(m1, m1.regs[RSP], [0] + ARGS)
    && OnePushed(m, m1, top)
    && forall v :: Kept(m1, v, back) ==> exists m' :: Reaches(image, base, v, m') && Spoiled(m, m', top)
  }

  /** The caller breaks the convention in any image, unless both registers happened
      to be 7. */
  lemma ConventionBroken(fs: seq<Func>, allocs: seq<Allocation>, addr: seq<Word>, base: int, image: Bytes, k: nat,
                         m: M, top: int) returns (m1: M, m2: M)
    requires Begun(fs, allocs, addr, base, image, k, m, top)
    ensures Breaks(image, base, m, m1, m2, addr[1], Back(Recv(fs), m), top)
    ensures m.regs[PhysId(R12)] != 7 || m.regs[PhysId(Rbx)] != 7 ==>
              forall m' :: Spoiled(m, m', top) ==> !SamePool(m.regs, m'.regs)
  {
    hide CodeAt, SizeAll, Star, E.Called, ArgsAt, Kept, Spoiled, Back, Begun, Started, SamePool, Reaches, DecodeMap, FnCtx,
         Recv, OnePushed;
    BegunIsStarted(fs, allocs, addr, base, image, k, m, top);
    var code := DecodeMap(image, base);
    m1, m2 := CallerBreaks(code, FnCtx(fs, allocs, addr, k), Recv(fs), m, top);
    StarBytes(image, base, m, m2);
    forall v | Kept(m1, v, Back(Recv(fs), m))
      ensures exists m' :: Reaches(image, base, v, m') && Spoiled(m, m', top)
    {
      var m' :| Star(code, v, m') && Spoiled(m, m', top);
      StarBytes(image, base, v, m');
    }
    forall m' | Spoiled(m, m', top) && SamePool(m.regs, m'.regs)
      ensures m.regs[PhysId(R12)] == 7 && m.regs[PhysId(Rbx)] == 7
    {
      SpoiledPool(m, m', top);
    }
  }

  /** So it is with the compiled callee of the same image, whenever the callee's
      program returns. */
  lemma BrokenByCompiled(fs: seq<Func>, allocs: seq<Allocation>, addr: seq<Word>, base: int, image: Bytes, lo: int,
                         m: M, m1: M, m2: M, back: Word, top: int, n: nat, x: Word, h: Heap) returns (m': M)
    requires 1 < |fs| == |allocs| == |addr| && Breaks(image, base, m, m1, m2, addr[1], back, top)
    requires 0 <= lo && lo + 56 <= top && top % 8 == 0 && Cells(m.stack, lo, top) && I.Separate(m)
    requires Returns(Callee(fs, allocs, addr, base, image, lo, m1, back), 1, [0] + ARGS, m.heap, n, x, h)
    requires ImageOf(fs, allocs, addr, base, image)
    ensures Reaches(image, base, m, m') && Spoiled(m, m', top)
  {
    hide ImageOf, Reaches, Returns, Callee, Kept, Spoiled, ArgsAt, E.Called;
    var v := ConventionKept(fs, allocs, addr, base, image, lo, m1, m2, back, 1, [0] + ARGS, n, x, h);
    var m'' :| Reaches(image, base, v, m'') && Spoiled(m, m'', top);
    m' := m'';
    ReachesOn(image, base, m, m2, v);
    ReachesOn(image, base, m, v, m');
  }
}
