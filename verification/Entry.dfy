/** Entering a function: the suspended caller, the prologue, the parameters'
    homes. */
module Entry {
  import opened Ir
  import opened Words
  import opened Liveness
  import IrSemantics
  import opened Locations
  import opened RegAlloc
  import opened Machine
  import opened Emission
  import opened Execution
  import opened Instructions
  import opened Frames
  import opened Relation
  import opened Preservation
  import opened Simulation
  import opened Calls

  /** rsp just before a call made by the last of `fs` pushes its return address. */
  function EntryTop(w: World, fs: seq<Frame>): int {
    if fs == [] then w.hi else FrameRsp(w, fs) - TailBytes(w, IrSemantics.Top(fs))
  }

  /** Control has just arrived at function `k`: return address on top of the
      stack, arguments in place, callers suspended. */
  ghost predicate Entering(w: World, fs: seq<Frame>, k: nat, ws: seq<Word>, m: M) {
    && Has(w, k) && m.rip == w.p.addr[k]
    && m.regs[RSP] == EntryTop(w, fs) - 8 && Cell(m.stack, EntryTop(w, fs) - 8) == ReturnTo(w, fs)
    && Suspended(w, fs, m) && Cells(m.stack, w.lo, w.hi) && Separate(m)
    && ArgsAt(m, EntryTop(w, fs), ws)
  }

  /** The callee's first frame. */
  function NewFrame(w: World, k: nat, ws: seq<Word>): Frame
    requires Has(w, k)
  {
    IrSemantics.Frame(k, 0, 0, IrSemantics.Bind(w.p.funcs[k], ws))
  }

  function Entered(w: World, fs: seq<Frame>, k: nat, ws: seq<Word>): seq<Frame>
    requires Has(w, k)
  {
    fs + [NewFrame(w, k, ws)]
  }

  lemma NewGeometry(w: World, fs: seq<Frame>, k: nat, ws: seq<Word>)
    requires Ready(w) && Has(w, k)
    ensures var fs' := Entered(w, fs, k, ws);
            && IrSemantics.Top(fs') == NewFrame(w, k, ws) && IrSemantics.Rest(fs') == fs
            && InWorld(w, NewFrame(w, k, ws)) && AllocOf(w, NewFrame(w, k, ws)) == w.allocs[k]
            && FrameTop(w, fs') == EntryTop(w, fs)
            && FrameRsp(w, fs') == EntryTop(w, fs) - 16 - FrameBytes(w.allocs[k]) - 8 * |Savers(w.allocs[k])|
  {
    hide CodeAt, SizeAll, FnAsm, FrameBytes, Savers, TailBytes, WellFormed, AllocationOf, InSubset;
    assert FnOk(w, k);
    assert IrSemantics.Rest(Entered(w, fs, k, ws)) == fs;
  }

  // ---------- the frame ----------

  /** The machine after `push rbp; mov rbp, rsp; sub rsp, ...`. */
  ghost predicate Based(m: M, m': M, top: int, bytes: nat) {
    && bytes <= top - 16 < B64
    && m'.regs == m.regs[RBP := top - 16][RSP := top - 16 - bytes]
    && m'.stack == m.stack[top - 16 := m.regs[RBP]] && m'.heap == m.heap
  }

  lemma ReserveRuns(code: Code, ctx: Ctx, m: M, bytes: nat) returns (m': M)
    requires CodeAt(code, m.rip, Reserve(bytes), ctx) && bytes <= m.regs[RSP]
    ensures Star(code, m, m') && m'.rip == m.rip + SizeAll(Reserve(bytes))
    ensures m'.regs == m.regs[RSP := m.regs[RSP] - bytes] && m'.stack == m.stack && m'.heap == m.heap
  {
    hide CodeAt, Star, Plus, Steps;
    if bytes > 0 {
      var a := SubRsp(bytes);
      One(a);
      m' := Past(m, Size(a)).(regs := m.regs[RSP := m.regs[RSP] - bytes], flags := None);
      OneStep(code, ctx, m, a, m');
    } else {
      assert m.regs[RSP := m.regs[RSP]] == m.regs;
      StarRefl(code, m);
      m' := m;
    }
  }

  lemma BaseRuns(code: Code, ctx: Ctx, m: M, top: int, bytes: nat) returns (m': M)
    requires CodeAt(code, m.rip, [Push(RBP, false)] + [MovRR(RBP, RSP)] + Reserve(bytes), ctx)
    requires m.regs[RSP] == top - 8 && bytes <= top - 16 && top - 16 in m.stack
    ensures Star(code, m, m') && m'.rip == m.rip + SizeAll([Push(RBP, false)] + [MovRR(RBP, RSP)] + Reserve(bytes))
    ensures Based(m, m', top, bytes)
  {
    hide CodeAt, SizeAll, Star, Plus, Steps, Reserve;
    Split3(code, m.rip, [Push(RBP, false)], [MovRR(RBP, RSP)], Reserve(bytes), ctx);
    One(Push(RBP, false));
    One(MovRR(RBP, RSP));
    var m1 := RunPush(code, ctx, m, RBP, false);
    var m2 := Past(m1, 3).(regs := m1.regs[RBP := top - 16]);
    OneStep(code, ctx, m1, MovRR(RBP, RSP), m2);
    m' := ReserveRuns(code, ctx, m2, bytes);
    StarTrans(code, m, m1, m2);
    StarTrans(code, m, m2, m');
    assert m'.regs == m.regs[RBP := top - 16][RSP := top - 16 - bytes];
  }

  /** Frame set up: rbp, reserved bytes, saved registers. */
  ghost predicate FrameMade(m: M, m': M, top: int, bytes: nat, rs: seq<Phys>) {
    && bytes + 8 * |rs| <= top - 16 < B64
    && m'.regs == m.regs[RBP := top - 16][RSP := top - 16 - bytes - 8 * |rs|]
    && m'.stack == Saved(m.stack[top - 16 := m.regs[RBP]], m.regs, top - 16 - bytes, rs) && m'.heap == m.heap
  }

  lemma EnterRuns(code: Code, ctx: Ctx, m: M, top: int, bytes: nat, rs: seq<Phys>) returns (m': M)
    requires CodeAt(code, m.rip, [Push(RBP, false)] + [MovRR(RBP, RSP)] + Reserve(bytes) + PushSavers(rs), ctx)
    requires m.regs[RSP] == top - 8 && bytes + 8 * |rs| <= top - 16 && top % 8 == 0 && bytes % 8 == 0
    requires Cells(m.stack, top - 16 - bytes - 8 * |rs|, top)
    ensures Star(code, m, m')
    ensures m'.rip == m.rip + SizeAll([Push(RBP, false)] + [MovRR(RBP, RSP)] + Reserve(bytes) + PushSavers(rs))
    ensures FrameMade(m, m', top, bytes, rs)
  {
    hide CodeAt, SizeAll, Star, Plus, Steps, Reserve, Saved;
    var base := [Push(RBP, false)] + [MovRR(RBP, RSP)] + Reserve(bytes);
    Split2(code, m.rip, base, PushSavers(rs), ctx);
    var m1 := BaseRuns(code, ctx, m, top, bytes);
    CellsKept(m, m1, top, bytes, rs);
    m' := RunPushSavers(code, ctx, m1, rs);
    StarTrans(code, m, m1, m');
    forall p: Phys
      ensures m1.regs[PhysId(p)] == m.regs[PhysId(p)]
    {
      PhysFacts(p);
    }
    SavedRegs(m1.stack, m.regs, m1.regs, top - 16 - bytes, rs);
    assert m'.regs == m.regs[RBP := top - 16][RSP := top - 16 - bytes - 8 * |rs|];
  }

  lemma CellsKept(m: M, m1: M, top: int, bytes: nat, rs: seq<Phys>)
    requires Based(m, m1, top, bytes) && Cells(m.stack, top - 16 - bytes - 8 * |rs|, top)
    requires bytes + 8 * |rs| <= top - 16 && top % 8 == 0 && bytes % 8 == 0
    ensures m1.regs[RSP] >= 8 * |rs| && m1.regs[RSP] % 8 == 0
    ensures Cells(m1.stack, m1.regs[RSP] - 8 * |rs|, m1.regs[RSP])
  {
  }

  /** What unwinding the new frame would give back is the caller's own state. */
  lemma MadeUnwinds(m: M, m': M, top: int, bytes: nat, rs: seq<Phys>)
    requires FrameMade(m, m', top, bytes, rs) && Distinct(rs)
    ensures SamePool(m.regs, Restored(m'.regs, m'.stack, top - 16 - bytes, rs)[RBP := Cell(m'.stack, top - 16)])
    ensures SameAbove(m.stack, m'.stack, top - 8)
    ensures m.stack.Keys + {top - 16} <= m'.stack.Keys
  {
    hide Saved, Restored;
    var s1, base := m.stack[top - 16 := m.regs[RBP]], top - 16 - bytes;
    SavedCell(s1, m.regs, base, rs, top - 16);
    SavedGrows(s1, m.regs, base, rs);
    forall p: Phys
      ensures Restored(m'.regs, m'.stack, base, rs)[PhysId(p)] == m.regs[PhysId(p)] && PhysId(p) != RBP
    {
      PhysFacts(p);
      SavedRestored(m.regs, m'.regs, s1, base, rs, PhysId(p));
    }
    forall a | a >= top - 8
      ensures (a in m.stack <==> a in m'.stack) && Cell(m.stack, a) == Cell(m'.stack, a)
    {
      SavedCell(s1, m.regs, base, rs, a);
    }
  }

  lemma SavedKeys(s: Stack, regs: Regs, base: int, rs: seq<Phys>)
    requires Cells(s, base - 8 * |rs|, base) && base % 8 == 0
    ensures Saved(s, regs, base, rs).Keys == s.Keys
    decreases |rs|
  {
    if rs != [] {
      var s1 := s[base - 8 := regs[PhysId(rs[0])]];
      assert s1.Keys == s.Keys;
      SavedKeys(s1, regs, base - 8, rs[1..]);
    }
  }

  lemma MadeKeys(m: M, m': M, top: int, bytes: nat, rs: seq<Phys>)
    requires FrameMade(m, m', top, bytes, rs) && top % 8 == 0 && bytes % 8 == 0
    requires Cells(m.stack, top - 16 - bytes - 8 * |rs|, top)
    ensures m'.stack.Keys == m.stack.Keys
  {
    hide Saved;
    var s1 := m.stack[top - 16 := m.regs[RBP]];
    assert s1.Keys == m.stack.Keys;
    SavedKeys(s1, m.regs, top - 16 - bytes, rs);
  }

  lemma Bounds(w: World)
    requires Ready(w)
    ensures 0 <= w.lo <= w.hi < B64 && w.hi % 8 == 0
  {
  }

  /** The stack side of the relation holds once the frame is made. */
  lemma FramesMade(w: World, fs: seq<Frame>, k: nat, ws: seq<Word>, m: M, m': M)
    requires Ready(w) && Entering(w, fs, k, ws, m) && w.lo <= FrameRsp(w, Entered(w, fs, k, ws))
    requires FrameMade(m, m', EntryTop(w, fs), FrameBytes(w.allocs[k]), Savers(w.allocs[k]))
    ensures FramesOk(w, Entered(w, fs, k, ws), m')
  {
    hide CodeAt, SizeAll, FrameBytes, Savers, Suspended, Saved, Restored, TailBytes, FnOk, FrameTop, FrameRsp, Cells,
         ReturnTo, ArgsAt;
    var a, top := w.allocs[k], EntryTop(w, fs);
    NewGeometry(w, fs, k, ws);
    var fs' := Entered(w, fs, k, ws);
    Bounds(w);
    FrameAligned(w, fs');
    FrameBytesFit(a);
    SaversDistinct(a);
    MadeUnwinds(m, m', top, FrameBytes(a), Savers(a));
    CellsWithin(m.stack, w.lo, w.hi, FrameRsp(w, fs'), top);
    MadeKeys(m, m', top, FrameBytes(a), Savers(a));
    CellsSame(m.stack, m'.stack, w.lo, w.hi);
    FrameOrder(w, fs');
    SuspendedDep(w, fs, m, Unwound(w, fs', m'));
  }

  lemma SaversDistinct(a: Allocation)
    ensures Distinct(Savers(a))
  {
    SaverListDistinct(a.loc, |POOL|);
  }

  lemma CellsWithin(s: Stack, lo: int, hi: int, lo': int, hi': int)
    requires Cells(s, lo, hi) && lo <= lo' && hi' <= hi
    ensures Cells(s, lo', hi')
  {
  }

  lemma CellsSame(s: Stack, s': Stack, lo: int, hi: int)
    requires Cells(s, lo, hi) && s.Keys == s'.Keys
    ensures Cells(s', lo, hi)
  {
  }

  // ---------- parameters ----------

  /** The vregs whose parameters are in place after `n` of them. */
  predicate Bound(f: Func, n: nat, v: VReg) { v < f.vregs && IrSemantics.FirstParam(f) <= v <= n }

  /** The last parameter, up to number `n`, whose home is `v`'s home. */
  function LastAt(loc: Locs, n: nat, v: VReg): (u: VReg)
    ensures v <= u && (u <= n || u == v)
  {
    if n <= v then v else if n < |loc| && loc[n] == LocOf(loc, v) then n else LastAt(loc, n - 1, v)
  }

  /** Parameters are stored in order, so a home shared by two of them keeps the later. */
  ghost predicate ParamsHold(f: Func, loc: Locs, ws: seq<Word>, n: nat, m: M)
    requires |ws| == Incoming(f) && n <= f.arity
  {
    forall v: VReg :: Bound(f, n, v) ==>
      HomeHolds(m, LocOf(loc, v), ws[LastAt(loc, n, v) - IrSemantics.FirstParam(f)])
  }

  /** Only the home `l` and rax changed. */
  ghost predicate ParamSet(m: M, m': M, l: Loc, x: Word) {
    && m'.regs == SetHome(m.(regs := m.regs[RAX := m'.regs[RAX]]), l, x).regs
    && m'.stack == SetHome(m, l, x).stack && m'.heap == m.heap
  }

  lemma RegParamRuns(code: Code, ctx: Ctx, m: M, k: nat, l: Loc) returns (m': M)
    requires k < 6 && CodeAt(code, m.rip, Put(ARG[k], l), ctx) && HomeOk(m, l)
    ensures Star(code, m, m') && m'.rip == m.rip + SizeAll(Put(ARG[k], l)) && ParamSet(m, m', l, m.regs[ARG[k]])
  {
    hide CodeAt, SizeAll, Star, Put;
    m' := RunPut(code, ctx, m, ARG[k], l);
    if l.Reg? { PhysFacts(l.phys); }
    assert m.regs[RAX := m'.regs[RAX]] == m.regs;
  }

  lemma StackParamRuns(code: Code, ctx: Ctx, m: M, disp: int, l: Loc, x: Word) returns (m': M)
    requires CodeAt(code, m.rip, [Load(RAX, RBP, disp)] + Put(RAX, l), ctx) && HomeOk(m, l)
    requires 0 <= m.regs[RBP] + disp < B64 && HasWord(m.stack, m.regs[RBP] + disp, x)
    ensures Star(code, m, m') && m'.rip == m.rip + SizeAll([Load(RAX, RBP, disp)] + Put(RAX, l)) && ParamSet(m, m', l, x)
  {
    hide CodeAt, SizeAll, Star, Plus, Steps, Put;
    var a := Load(RAX, RBP, disp);
    Split2(code, m.rip, [a], Put(RAX, l), ctx);
    One(a);
    var m1 := Past(m, Size(a)).(regs := m.regs[RAX := x]);
    OneStep(code, ctx, m, a, m1);
    m' := RunPut(code, ctx, m1, RAX, l);
    StarTrans(code, m, m1, m');
    if l.Reg? { PhysFacts(l.phys); }
    assert m'.regs[RAX] == x;
  }

  /** Argument number of parameter `p`. */
  function ArgNo(f: Func, p: nat): nat { if f.receiver then p + 1 else p }

  lemma ParamRuns(code: Code, ctx: Ctx, m: M, f: Func, loc: Locs, p: nat, ws: seq<Word>, top: int) returns (m': M)
    requires CodeAt(code, m.rip, ParamAsm(f, loc, p), ctx) && p + 1 < |loc| && HomeOk(m, loc[p + 1])
    requires ArgsAt(m, top, ws) && m.regs[RBP] == top - 16 && ArgNo(f, p) < |ws|
    ensures Star(code, m, m') && m'.rip == m.rip + SizeAll(ParamAsm(f, loc, p))
    ensures ParamSet(m, m', loc[p + 1], ws[ArgNo(f, p)])
  {
    hide CodeAt, SizeAll, Star, Put, HomeOk, ParamSet;
    var j := ArgNo(f, p);
    assert ArgAt(m, top, ws, j);
    if j >= 6 {
      m' := StackParamRuns(code, ctx, m, 16 + 8 * (j - 6), loc[p + 1], ws[j]);
    } else {
      m' := RegParamRuns(code, ctx, m, j, loc[p + 1]);
    }
  }

  lemma ParamAgrees(m: M, m': M, l: Loc, x: Word)
    requires ParamSet(m, m', l, x)
    ensures Agree(m', SetHome(m, l, x))
  {
    if l.Reg? { PhysFacts(l.phys); }
  }

  lemma ArgsKept(m: M, m': M, l: Loc, x: Word, top: int, ws: seq<Word>)
    requires ArgsAt(m, top, ws) && ParamSet(m, m', l, x) && m.regs[RBP] == top - 16
    ensures ArgsAt(m', top, ws)
  {
    if l.Reg? { PhysFacts(l.phys); }
    forall j: nat | j < |ws|
      ensures ArgAt(m', top, ws, j)
    {
      assert ArgAt(m, top, ws, j);
      if j < 6 { ArgFacts(j); }
    }
  }

  /** Between parameters of function `k`'s prologue. */
  ghost predicate Placing(w: World, fs: seq<Frame>, k: nat, ws: seq<Word>, n: nat, h: Heap, m: M) {
    && Ready(w) && Has(w, k) && |ws| == Incoming(w.p.funcs[k]) && n <= w.p.funcs[k].arity
    && FramesOk(w, Entered(w, fs, k, ws), m) && ArgsAt(m, EntryTop(w, fs), ws) && m.heap == h
    && ParamsHold(w.p.funcs[k], w.allocs[k].loc, ws, n, m)
  }

  lemma LocRange(w: World, k: nat)
    requires Ready(w) && Has(w, k)
    ensures |w.allocs[k].loc| == w.p.funcs[k].vregs
  {
    hide CodeAt, SizeAll, FnAsm, InSubset, WellFormed, AllocationOf;
    assert FnOk(w, k);
    LocLength(w.p.funcs[k], w.allocs[k]);
  }

  /** Storing one more parameter. */
  lemma PlaceOne(w: World, fs: seq<Frame>, k: nat, ws: seq<Word>, n: nat, h: Heap, m: M, m': M)
    requires n > 0 && Placing(w, fs, k, ws, n - 1, h, m) && n <= w.p.funcs[k].arity && n < w.p.funcs[k].vregs
    requires |w.allocs[k].loc| == w.p.funcs[k].vregs
    requires ParamSet(m, m', w.allocs[k].loc[n], ws[n - IrSemantics.FirstParam(w.p.funcs[k])])
    ensures Placing(w, fs, k, ws, n, h, m')
  {
    hide CodeAt, SizeAll, FramesOk, Ready, ParamSet, HomeHolds, ArgsAt, FrameTop, EntryTop, HomeOk, Agree, SetHome,
         InWorld, FrameRsp;
    var f, loc, fs' := w.p.funcs[k], w.allocs[k].loc, Entered(w, fs, k, ws);
    var x := ws[n - IrSemantics.FirstParam(f)];
    NewGeometry(w, fs, k, ws);
    ParamAgrees(m, m', loc[n], x);
    FramesAfterSet(w, fs', m, m', n, x);
    HomeIsOk(w, fs', m, n);
    BasePointer(w, fs', m);
    ArgsKept(m, m', loc[n], x, EntryTop(w, fs), ws);
    ParamHeap(m, m', loc[n], x);
    forall u: VReg | Bound(f, n, u)
      ensures HomeHolds(m', LocOf(loc, u), ws[LastAt(loc, n, u) - IrSemantics.FirstParam(f)])
    {
      if loc[u] == loc[n] {
        SetHolds(m, m', loc[n], x);
      } else {
        HoldsAfterSet(m, m', loc[u], loc[n], x, ws[LastAt(loc, n - 1, u) - IrSemantics.FirstParam(f)]);
      }
    }
  }

  lemma ParamHeap(m: M, m': M, l: Loc, x: Word)
    requires ParamSet(m, m', l, x)
    ensures m'.heap == m.heap
  {
  }

  lemma BasePointer(w: World, fs: seq<Frame>, m: M)
    requires FramesOk(w, fs, m)
    ensures m.regs[RBP] == FrameTop(w, fs) - 16
  {
  }

  lemma ParamIsOk(w: World, fs: seq<Frame>, k: nat, ws: seq<Word>, m: M, v: VReg)
    requires Ready(w) && Has(w, k) && FramesOk(w, Entered(w, fs, k, ws), m) && v < w.p.funcs[k].vregs
    ensures |w.allocs[k].loc| == w.p.funcs[k].vregs && HomeOk(m, w.allocs[k].loc[v])
    ensures m.regs[RBP] == EntryTop(w, fs) - 16
  {
    hide CodeAt, SizeAll, FramesOk, Ready, EntryTop, HomeOk, FrameTop;
    NewGeometry(w, fs, k, ws);
    LocRange(w, k);
    HomeIsOk(w, Entered(w, fs, k, ws), m, v);
    BasePointer(w, Entered(w, fs, k, ws), m);
  }

  lemma {:induction false} ParamsRun(w: World, fs: seq<Frame>, k: nat, ws: seq<Word>, n: nat, h: Heap, m: M) returns (m': M)
    requires Ready(w) && Has(w, k) && |ws| == Incoming(w.p.funcs[k]) && n <= w.p.funcs[k].arity
    requires FramesOk(w, Entered(w, fs, k, ws), m) && ArgsAt(m, EntryTop(w, fs), ws) && m.heap == h
    requires CodeAt(w.code, m.rip, ParamsAsm(w.p.funcs[k], w.allocs[k].loc, n), CtxOf(w, k))
    ensures Star(w.code, m, m') && m'.rip == m.rip + SizeAll(ParamsAsm(w.p.funcs[k], w.allocs[k].loc, n))
    ensures Placing(w, fs, k, ws, n, h, m')
    decreases n
  {
    hide CodeAt, SizeAll, Star, FramesOk, Ready, EntryTop, HomeOk, Put, ArgsAt, ParamSet, ParamAsm, Placing;
    var f, loc, ctx := w.p.funcs[k], w.allocs[k].loc, CtxOf(w, k);
    if n == 0 {
      m' := ReceiverRuns(w, fs, k, ws, h, m);
    } else {
      Split2(w.code, m.rip, ParamsAsm(f, loc, n - 1), ParamAsm(f, loc, n - 1), ctx);
      var m1 := ParamsRun(w, fs, k, ws, n - 1, h, m);
      m' := NextParam(w, fs, k, ws, n, h, m1);
      StarTrans(w.code, m, m1, m');
    }
  }

  lemma NextParam(w: World, fs: seq<Frame>, k: nat, ws: seq<Word>, n: nat, h: Heap, m: M) returns (m': M)
    requires n > 0 && Placing(w, fs, k, ws, n - 1, h, m) && n <= w.p.funcs[k].arity
    requires CodeAt(w.code, m.rip, ParamAsm(w.p.funcs[k], w.allocs[k].loc, n - 1), CtxOf(w, k))
    ensures Star(w.code, m, m') && m'.rip == m.rip + SizeAll(ParamAsm(w.p.funcs[k], w.allocs[k].loc, n - 1))
    ensures Placing(w, fs, k, ws, n, h, m')
  {
    hide CodeAt, SizeAll, Star, FramesOk, Ready, EntryTop, HomeOk, Put, ArgsAt, ParamSet, HomeHolds;
    var f, loc := w.p.funcs[k], w.allocs[k].loc;
    if n < f.vregs {
      ParamIsOk(w, fs, k, ws, m, n);
      m' := ParamRuns(w.code, CtxOf(w, k), m, f, loc, n - 1, ws, EntryTop(w, fs));
      PlaceOne(w, fs, k, ws, n, h, m, m');
    } else {
      LocRange(w, k);
      assert ParamAsm(f, loc, n - 1) == [];
      EmptySize();
      StarRefl(w.code, m);
      m' := m;
    }
  }

  lemma ReceiverRuns(w: World, fs: seq<Frame>, k: nat, ws: seq<Word>, h: Heap, m: M) returns (m': M)
    requires Ready(w) && Has(w, k) && |ws| == Incoming(w.p.funcs[k])
    requires FramesOk(w, Entered(w, fs, k, ws), m) && ArgsAt(m, EntryTop(w, fs), ws) && m.heap == h
    requires CodeAt(w.code, m.rip, ParamsAsm(w.p.funcs[k], w.allocs[k].loc, 0), CtxOf(w, k))
    ensures Star(w.code, m, m') && m'.rip == m.rip + SizeAll(ParamsAsm(w.p.funcs[k], w.allocs[k].loc, 0))
    ensures Placing(w, fs, k, ws, 0, h, m')
  {
    hide CodeAt, SizeAll, Star, FramesOk, Ready, EntryTop, HomeOk, Put, ParamSet, HomeHolds;
    var f, loc := w.p.funcs[k], w.allocs[k].loc;
    if f.receiver {
      ReceiverExists(w, k);
      ParamIsOk(w, fs, k, ws, m, 0);
      assert ArgAt(m, EntryTop(w, fs), ws, 0);
      m' := RegParamRuns(w.code, CtxOf(w, k), m, 0, loc[0]);
      PlaceReceiver(w, fs, k, ws, h, m, m');
    } else {
      EmptySize();
      StarRefl(w.code, m);
      m' := m;
    }
  }

  lemma ReceiverExists(w: World, k: nat)
    requires Ready(w) && Has(w, k) && w.p.funcs[k].receiver
    ensures 0 < w.p.funcs[k].vregs
  {
    hide CodeAt, SizeAll, FnAsm, InSubset, AllocationOf;
    assert FnOk(w, k);
  }

  lemma PlaceReceiver(w: World, fs: seq<Frame>, k: nat, ws: seq<Word>, h: Heap, m: M, m': M)
    requires Ready(w) && Has(w, k) && |ws| == Incoming(w.p.funcs[k]) && w.p.funcs[k].receiver
    requires FramesOk(w, Entered(w, fs, k, ws), m) && ArgsAt(m, EntryTop(w, fs), ws) && m.heap == h
    requires 0 < |w.allocs[k].loc| && 0 < w.p.funcs[k].vregs && ParamSet(m, m', w.allocs[k].loc[0], ws[0])
    ensures Placing(w, fs, k, ws, 0, h, m')
  {
    hide CodeAt, SizeAll, FramesOk, Ready, ParamSet, HomeHolds, ArgsAt, FrameTop, EntryTop, HomeOk;
    var loc, fs' := w.allocs[k].loc, Entered(w, fs, k, ws);
    NewGeometry(w, fs, k, ws);
    ParamAgrees(m, m', loc[0], ws[0]);
    FramesAfterSet(w, fs', m, m', 0, ws[0]);
    ParamIsOk(w, fs, k, ws, m, 0);
    ArgsKept(m, m', loc[0], ws[0], EntryTop(w, fs), ws);
    ParamHeap(m, m', loc[0], ws[0]);
    SetHolds(m, m', loc[0], ws[0]);
  }

  // ---------- the whole prologue ----------

  lemma PrologueCode(w: World, k: nat)
    requires Ready(w) && Has(w, k)
    ensures var a := w.allocs[k];
            CodeAt(w.code, w.p.addr[k],
                   [Push(RBP, false)] + [MovRR(RBP, RSP)] + Reserve(FrameBytes(a)) + PushSavers(Savers(a))
                   + ParamsAsm(w.p.funcs[k], a.loc, w.p.funcs[k].arity), CtxOf(w, k))
    ensures |w.p.funcs[k].blocks| > 0
  {
    hide CodeAt, SizeAll, InSubset, WellFormed, AllocationOf, Reserve, PushSavers, ParamsAsm, BlocksAsm, Savers,
         FrameBytes, CtxOf;
    assert FnOk(w, k);
    var f, a := w.p.funcs[k], w.allocs[k];
    Split2(w.code, w.p.addr[k], Prologue(f, a), BlocksAsm(a, RecvOf(w.p), f.blocks), CtxOf(w, k));
    assert [Push(RBP, false), MovRR(RBP, RSP)] == [Push(RBP, false)] + [MovRR(RBP, RSP)];
  }

  lemma NewAddr(w: World, k: nat, ws: seq<Word>)
    requires Ready(w) && Has(w, k)
    ensures InWorld(w, NewFrame(w, k, ws))
    ensures CodeAddr(w, NewFrame(w, k, ws)) == w.p.addr[k] + SizeAll(Prologue(w.p.funcs[k], w.allocs[k]))
  {
    hide CodeAt, FnAsm, InSubset, WellFormed, AllocationOf, Prologue, SizeAll;
    assert FnOk(w, k);
    var f := w.p.funcs[k];
    assert f.blocks[..0] == [] && f.blocks[0].instrs[..0] == [];
    EmptySize();
  }

  lemma {:induction false} LastAtShared(loc: Locs, n: nat, v: VReg)
    ensures LastAt(loc, n, v) == v <==> forall u: VReg :: v < u <= n && u < |loc| ==> loc[u] != LocOf(loc, v)
    decreases n
  {
    if n > v { LastAtShared(loc, n - 1, v); }
  }

  /** The last parameter of a static function is not counted among the incoming
      vregs, so its home is only reserved if it is live on entry or never touched. */
  ghost predicate LastReserved(f: Func) { f.receiver || f.arity >= f.vregs || AtEntry(f, f.arity) }

  /** Linear scan of the source function's intervals gives the last parameter of a
      static function the home of parameter `v`. */
  ghost predicate Shares(f: Func, v: VReg) {
    !f.receiver && 1 <= v < f.arity < f.vregs && Homes(f).loc[v] == Homes(f).loc[f.arity]
  }

  /** And `v` is live at the first instruction. */
  ghost predicate Overwritten(f: Func, v: VReg) { Shares(f, v) && LiveAt(f, Point(0, 0), v) }

  ghost predicate LastAlone(f: Func) { forall v: VReg :: !Overwritten(f, v) }

  /** The arguments of a call: what is overwritten was passed what overwrites it. */
  ghost predicate Harmless(f: Func, ws: seq<Word>) {
    |ws| == Incoming(f) && forall v: VReg :: Overwritten(f, v) ==> ws[v - 1] == ws[f.arity - 1]
  }

  /** The allocation in use is the source function's. */
  lemma LocIsHomes(w: World, k: nat)
    requires Ready(w) && Has(w, k)
    ensures w.allocs[k] == Homes(w.p.funcs[k])
  {
    hide CodeAt, SizeAll, FnAsm, InSubset, WellFormed, AllocationOf, Homes;
    assert FnOk(w, k);
    AllocationIs(w.p.funcs[k], w.allocs[k]);
  }

  /** Only the last parameter of a static function can take another's home. */
  lemma LastIs(w: World, k: nat, v: VReg)
    requires Ready(w) && Has(w, k) && Bound(w.p.funcs[k], w.p.funcs[k].arity, v)
    ensures var f := w.p.funcs[k];
            LastAt(w.allocs[k].loc, f.arity, v) == if Shares(f, v) then f.arity else v
  {
    hide CodeAt, SizeAll, FnAsm, InSubset, WellFormed, AllocationOf, Homes;
    LocIsHomes(w, k);
    LocRange(w, k);
    assert FnOk(w, k);
    var f, loc := w.p.funcs[k], w.allocs[k].loc;
    LastAtShared(loc, f.arity, v);
    forall u: VReg | v < u < Incoming(f) && u < |loc|
      ensures loc[u] != loc[v]
    {
      EntryInterference(f, w.allocs[k], u, v);
    }
  }

  /** Whatever the arguments, no live parameter is lost exactly when the last one is alone. */
  lemma AloneExactly(f: Func)
    ensures LastAlone(f) <==> forall ws: seq<Word> :: |ws| == Incoming(f) ==> Harmless(f, ws)
  {
    hide Homes, LiveAt;
    forall v: VReg | Overwritten(f, v)
      ensures exists ws: seq<Word> :: |ws| == Incoming(f) && !Harmless(f, ws)
    {
      var ws: seq<Word> := seq(Incoming(f), j => if j == v - 1 then 1 else 0);
      assert !Harmless(f, ws);
    }
  }

  lemma ReservedApart(f: Func, a: Allocation)
    requires WellFormed(f) && AllocationOf(f, a) && LastReserved(f)
    ensures LastAlone(f)
  {
    hide WellFormed, AllocationOf, AtEntry, Homes, LiveAt;
    AllocationIs(f, a);
    forall v: VReg | !f.receiver && f.arity < f.vregs && 1 <= v < f.arity
      ensures a.loc[v] != a.loc[f.arity]
    {
      EntersAtZero(f, v);
      EntryInterference(f, a, v, f.arity);
    }
  }

  /** A parameter's interval starts at 0, so the last parameter can only take the
      home of one whose interval has ended when its own starts. */
  lemma SharedStartsLater(f: Func, a: Allocation, v: VReg)
    requires WellFormed(f) && AllocationOf(f, a) && Shares(f, v)
    ensures Homes(f).loc[v].Reg? && SpanOf(f, v).end < SpanOf(f, f.arity).start
  {
    hide WellFormed, AllocationOf, Homes, SpanOf;
    SharedApart(f, a, v, f.arity);
    IncomingStarts(f, a, v);
  }

  lemma EntersAtZero(f: Func, v: VReg)
    requires v < Incoming(f)
    ensures AtEntry(f, v)
  {
  }

  /** Once the parameters are stored, every live one is in its home exactly when
      the call's arguments are harmless. */
  lemma EntryHomes(w: World, fs: seq<Frame>, k: nat, ws: seq<Word>, h: Heap, m: M)
    requires Has(w, k) && Placing(w, fs, k, ws, w.p.funcs[k].arity, h, m) && InWorld(w, NewFrame(w, k, ws))
    ensures LiveHomes(w, NewFrame(w, k, ws), m) <==> Harmless(w.p.funcs[k], ws)
  {
    hide CodeAt, SizeAll, Ready, FramesOk, LiveAt, ArgsAt, Homes, HomeOk, Home, LastAt;
    var f, fr := w.p.funcs[k], NewFrame(w, k, ws);
    LocRange(w, k);
    LocIsHomes(w, k);
    forall u: VReg | Bound(f, f.arity, u)
      ensures u in fr.env && fr.env[u] == ws[u - IrSemantics.FirstParam(f)]
      ensures HomeHolds(m, LocOf(w.allocs[k].loc, u), fr.env[u]) <==>
                (Shares(f, u) ==> ws[u - 1] == ws[f.arity - 1])
    {
      LastIs(w, k, u);
    }
    if Harmless(f, ws) {
      forall u: VReg | u in fr.env && LiveAt(f, Point(0, 0), u)
        ensures HomeHolds(m, LocOf(w.allocs[k].loc, u), fr.env[u])
      {
        assert Bound(f, f.arity, u) && (Shares(f, u) ==> Overwritten(f, u));
      }
    }
    if LiveHomes(w, fr, m) {
      forall u: VReg | Overwritten(f, u)
        ensures ws[u - 1] == ws[f.arity - 1]
      {
        assert Bound(f, f.arity, u);
      }
    }
  }

  lemma EnterFrame(w: World, fs: seq<Frame>, k: nat, ws: seq<Word>, m: M) returns (m': M)
    requires Ready(w) && Entering(w, fs, k, ws, m) && w.lo <= FrameRsp(w, Entered(w, fs, k, ws))
    requires var a := w.allocs[k];
             CodeAt(w.code, m.rip, [Push(RBP, false)] + [MovRR(RBP, RSP)] + Reserve(FrameBytes(a)) + PushSavers(Savers(a)),
                    CtxOf(w, k))
    ensures var a := w.allocs[k];
            && Star(w.code, m, m') && m'.rip == m.rip + SizeAll([Push(RBP, false)] + [MovRR(RBP, RSP)]
                                                       + Reserve(FrameBytes(a)) + PushSavers(Savers(a)))
            && FrameMade(m, m', EntryTop(w, fs), FrameBytes(a), Savers(a))
  {
    hide CodeAt, SizeAll, Star, Suspended, Ready, FrameTop, FrameRsp, Reserve, PushSavers, FrameBytes, Savers, ArgsAt,
         FrameMade, CtxOf, ReturnTo, TailBytes;
    var a, top := w.allocs[k], EntryTop(w, fs);
    NewGeometry(w, fs, k, ws);
    Bounds(w);
    FrameAligned(w, Entered(w, fs, k, ws));
    FrameBytesFit(a);
    CellsWithin(m.stack, w.lo, w.hi, FrameRsp(w, Entered(w, fs, k, ws)), top);
    m' := EnterRuns(w.code, CtxOf(w, k), m, top, FrameBytes(a), Savers(a));
  }

  lemma MadeArgs(m: M, m': M, top: int, bytes: nat, rs: seq<Phys>, ws: seq<Word>)
    requires FrameMade(m, m', top, bytes, rs) && Distinct(rs) && ArgsAt(m, top, ws)
    ensures ArgsAt(m', top, ws) && m'.heap == m.heap
  {
    hide Saved, Restored;
    MadeUnwinds(m, m', top, bytes, rs);
    forall j: nat | j < |ws|
      ensures ArgAt(m', top, ws, j)
    {
      assert ArgAt(m, top, ws, j);
      if j < 6 {
        ArgFacts(j);
      } else {
        var at := top + 8 * (j - 6);
        assert Cell(m.stack, at) == Cell(m'.stack, at);
      }
    }
  }

  /** From a function's first byte to its first instruction: the frame is made and
      every parameter's home holds the last argument stored in it. */
  lemma PrologueStores(w: World, fs: seq<Frame>, k: nat, ws: seq<Word>, h: Heap, m: M) returns (m': M)
    requires Ready(w) && Entering(w, fs, k, ws, m) && m.heap == h && |ws| == Incoming(w.p.funcs[k])
    requires w.lo <= FrameRsp(w, Entered(w, fs, k, ws))
    ensures Star(w.code, m, m') && Placing(w, fs, k, ws, w.p.funcs[k].arity, h, m')
    ensures InWorld(w, NewFrame(w, k, ws)) && m'.rip == CodeAddr(w, NewFrame(w, k, ws))
  {
    hide CodeAt, SizeAll, Star, Suspended, Ready, FrameTop, FrameRsp, Reserve, PushSavers, FrameBytes, Savers, ArgsAt,
         FrameMade, FramesOk, ReturnTo, EntryTop, ParamsAsm, CtxOf, CodeAddr, Placing, LiveHomes;
    var f, a := w.p.funcs[k], w.allocs[k];
    var setup := [Push(RBP, false)] + [MovRR(RBP, RSP)] + Reserve(FrameBytes(a)) + PushSavers(Savers(a));
    PrologueCode(w, k);
    Split2(w.code, m.rip, setup, ParamsAsm(f, a.loc, f.arity), CtxOf(w, k));
    var m1 := EnterFrame(w, fs, k, ws, m);
    FramesMade(w, fs, k, ws, m, m1);
    SaversDistinct(a);
    MadeArgs(m, m1, EntryTop(w, fs), FrameBytes(a), Savers(a), ws);
    m' := ParamsRun(w, fs, k, ws, f.arity, h, m1);
    StarTrans(w.code, m, m1, m');
    NewAddr(w, k, ws);
    assert Prologue(f, a) == setup + ParamsAsm(f, a.loc, f.arity);
  }

  /** At the callee's first instruction the machine represents the callee's first
      state exactly when the arguments are harmless. */
  lemma PrologueRuns(w: World, fs: seq<Frame>, k: nat, ws: seq<Word>, h: Heap, m: M) returns (m': M)
    requires Ready(w) && Entering(w, fs, k, ws, m) && m.heap == h && |ws| == Incoming(w.p.funcs[k])
    requires w.lo <= FrameRsp(w, Entered(w, fs, k, ws))
    ensures Star(w.code, m, m') && InWorld(w, NewFrame(w, k, ws)) && m'.rip == CodeAddr(w, NewFrame(w, k, ws))
    ensures Related(w, Entered(w, fs, k, ws), h, m') <==> Harmless(w.p.funcs[k], ws)
  {
    hide CodeAt, SizeAll, Star, Suspended, Ready, FrameTop, FrameRsp, FrameBytes, Savers, FramesOk, EntryTop, CodeAddr,
         Placing, LiveHomes, Entering, Harmless;
    m' := PrologueStores(w, fs, k, ws, h, m);
    EntryHomes(w, fs, k, ws, h, m');
    NewGeometry(w, fs, k, ws);
    PlacedFrames(w, fs, k, ws, w.p.funcs[k].arity, h, m');
  }

  /** Where the condition fails, the code does too: a parameter whose home is the
      last parameter's is gone before the first instruction. */
  lemma ParamLost(w: World, fs: seq<Frame>, k: nat, ws: seq<Word>, h: Heap, m: M, v: VReg) returns (m': M)
    requires Ready(w) && Has(w, k) && Entering(w, fs, k, ws, m) && m.heap == h && |ws| == Incoming(w.p.funcs[k])
    requires w.lo <= FrameRsp(w, Entered(w, fs, k, ws))
    requires Shares(w.p.funcs[k], v) && ws[v - 1] != ws[w.p.funcs[k].arity - 1]
    ensures InWorld(w, NewFrame(w, k, ws)) && Star(w.code, m, m') && m'.rip == CodeAddr(w, NewFrame(w, k, ws))
    ensures v in NewFrame(w, k, ws).env && NewFrame(w, k, ws).env[v] == ws[v - 1]
    ensures !HomeHolds(m', Homes(w.p.funcs[k]).loc[v], NewFrame(w, k, ws).env[v])
  {
    hide CodeAt, SizeAll, Star, Ready, FrameRsp, FramesOk, EntryTop, CodeAddr, Entering, ArgsAt, Homes;
    LocRange(w, k);
    LocIsHomes(w, k);
    m' := PrologueStores(w, fs, k, ws, h, m);
    assert Bound(w.p.funcs[k], w.p.funcs[k].arity, v);
  }

  lemma PlacedFrames(w: World, fs: seq<Frame>, k: nat, ws: seq<Word>, n: nat, h: Heap, m: M)
    requires Placing(w, fs, k, ws, n, h, m)
    ensures FramesOk(w, Entered(w, fs, k, ws), m) && m.heap == h
  {
  }

  // ---------- the caller's side ----------

  /** A call's return address is a code address. */
  lemma ReturnAddrFits(w: World, fr: Frame)
    requires Ready(w) && AtCall(w, fr)
    ensures 0 <= CodeAddr(w, fr) <= ReturnAddr(w, fr) < B64
  {
    hide CodeAt, SizeAll, BlocksAsm, InstrsAsm, InstrAsm, TermAsm, Prologue, WellFormed, AllocationOf, InSubset,
         CallHead, CallTail;
    assert FnOk(w, fr.fidx);
    var f, a, recv, i := FnOf(w, fr), AllocOf(w, fr), RecvOf(w.p), CallOf(w, fr);
    var block := f.blocks[fr.block];
    SizeAppend(Prologue(f, a), BlocksAsm(a, recv, f.blocks));
    BlockSplit(a, recv, f.blocks, fr.block);
    SizeAppend(BlocksAsm(a, recv, f.blocks[..fr.block]), BlockAsm(a, recv, block) + BlocksAsm(a, recv,
        f.blocks[fr.block + 1..]));
    SizeAppend(BlockAsm(a, recv, block), BlocksAsm(a, recv, f.blocks[fr.block + 1..]));
    SizeAppend(InstrsAsm(a.loc, recv, block.instrs), TermAsm(a, block.term));
    InstrSplit(a.loc, recv, block.instrs, fr.pos);
    SizeAppend(InstrsAsm(a.loc, recv, block.instrs[..fr.pos]),
               InstrAsm(a.loc, recv, i) + InstrsAsm(a.loc, recv, block.instrs[fr.pos + 1..]));
    SizeAppend(InstrAsm(a.loc, recv, i), InstrsAsm(a.loc, recv, block.instrs[fr.pos + 1..]));
    CallSplit(a.loc, recv, i);
    SizeAppend(CallHead(a.loc, recv, i), CallTail(a.loc, i));
  }

  lemma {:induction false} ValuesAt(env: IrSemantics.Env, vs: seq<VReg>, ws: seq<Word>)
    requires IrSemantics.Values(env, vs) == Some(ws)
    ensures |ws| == |vs| && forall j :: 0 <= j < |vs| ==> vs[j] in env && ws[j] == env[vs[j]]
  {
    if vs != [] {
      ValuesAt(env, vs[1..], ws[1..]);
      forall j | 0 <= j < |vs|
        ensures vs[j] in env && ws[j] == env[vs[j]]
      {
        if j > 0 { assert vs[j] == vs[1..][j - 1] && ws[j] == ws[1..][j - 1]; }
      }
    }
  }

  /** Arguments of the pending call wait in their homes. */
  lemma ArgsWait(w: World, fs: seq<Frame>, h: Heap, m: M, i: Instr, ws: seq<Word>)
    requires Here(w, fs, h, m, i) && IrSemantics.IsCall(i) && IrSemantics.Values(Env(fs), i.args) == Some(ws)
    ensures Waiting(m, AllocOf(w, IrSemantics.Top(fs)).loc, i.args, ws)
  {
    hide CodeAt, SizeAll, Ready, Suspended, FrameTop, FrameRsp, Unwound, LiveHomes, HomeHolds, FrameBytes, Savers, Cells,
         Separate, CodeAddr, IrSemantics.Values, HomeAddr;
    var fr, loc := IrSemantics.Top(fs), AllocOf(w, IrSemantics.Top(fs)).loc;
    ValuesAt(Env(fs), i.args, ws);
    FrameSpan(w, fs);
    forall j | 0 <= j < |i.args|
      ensures HomeHolds(m, LocOf(loc, i.args[j]), ws[j]) && AboveSp(m, LocOf(loc, i.args[j]))
    {
      var u := i.args[j];
      assert u in Uses(i);
      OperandIsHome(w, fs, h, m, i, u);
      UsedInRange(w, fr, u);
      SlotInFrame(w, fr, u);
      SlotAbove(m, FrameTop(w, fs), LocOf(loc, u), FrameBytes(AllocOf(w, fr)), |Savers(AllocOf(w, fr))|);
    }
  }

  lemma SlotAbove(m: M, top: int, l: Loc, bytes: nat, n: nat)
    requires m.regs[RBP] == top - 16 && m.regs[RSP] == top - 16 - bytes - 8 * n
    requires l.Slot? ==> 8 * (l.k + 1) <= bytes
    ensures AboveSp(m, l)
  {
  }

  /** At a call, the frames so far are suspended frames. */
  lemma SuspendHere(w: World, fs: seq<Frame>, h: Heap, m: M, i: Instr)
    requires Here(w, fs, h, m, i) && IrSemantics.IsCall(i)
    ensures AtCall(w, IrSemantics.Top(fs)) && CallOf(w, IrSemantics.Top(fs)) == i && Suspended(w, fs, m)
  {
    hide CodeAt, SizeAll, Ready, FrameTop, FrameRsp, Unwound, Cells, Separate, CodeAddr, LiveAt, HomeHolds,
        FrameBytes, Savers;
    var fr := IrSemantics.Top(fs);
    forall u | u in fr.env && u != i.dst && LiveAt(FnOf(w, fr), Point(fr.block, fr.pos + 1), u)
      ensures HomeHolds(m, LocOf(AllocOf(w, fr).loc, u), fr.env[u])
    {
      LiveOther(w, fr, i, i.dst, u);
    }
  }

  /** `m2` is `m1` just after a call to `target` returning to `back`. */
  ghost predicate Called(m1: M, m2: M, target: int, back: int) {
    && m1.regs[RSP] >= 8 && 0 <= back < B64
    && m2.rip == target && m2.regs == m1.regs[RSP := m1.regs[RSP] - 8]
    && m2.stack == m1.stack[m1.regs[RSP] - 8 := back] && m2.heap == m1.heap
  }

  /** `a` is a call instruction whose target is `target`. */
  predicate GoesTo(ctx: Ctx, a: Asm, m: M, target: int) {
    match a
    case CallFn(k) => k < |ctx.fn| && target == ctx.fn[k]
    case CallReg(r) => target == m.regs[r]
    case _ => false
  }

  lemma CallRuns(code: Code, ctx: Ctx, m1: M, a: Asm, target: int) returns (m2: M)
    requires CodeAt(code, m1.rip, [a], ctx) && 0 <= m1.rip + Size(a) < B64
    requires m1.regs[RSP] >= 8 && m1.regs[RSP] - 8 in m1.stack
    requires GoesTo(ctx, a, m1, target)
    ensures Plus(code, m1, m2) && Called(m1, m2, target, m1.rip + Size(a))
  {
    hide CodeAt, Plus, Star, Steps;
    var back := m1.rip + Size(a);
    m2 := m1.(rip := target, regs := m1.regs[RSP := m1.regs[RSP] - 8], stack := m1.stack[m1.regs[RSP] - 8 := back]);
    PushOffset(m1.regs[RSP]);
    OneStep(code, ctx, m1, a, m2);
  }

  lemma ArgsCalled(m1: M, m2: M, target: int, back: int, ws: seq<Word>)
    requires Called(m1, m2, target, back) && ArgsAt(m1, m1.regs[RSP], ws)
    ensures ArgsAt(m2, m1.regs[RSP], ws)
  {
    forall j: nat | j < |ws|
      ensures ArgAt(m2, m1.regs[RSP], ws, j)
    {
      assert ArgAt(m1, m1.regs[RSP], ws, j);
      if j < 6 { ArgFacts(j); }
    }
  }

  /** Arguments placed and the call made: control is at the callee. */
  lemma Arrives(w: World, fs: seq<Frame>, h: Heap, m: M, i: Instr, k: nat, ws: seq<Word>, m0: M, m1: M, m2: M, n: nat)
    requires Here(w, fs, h, m, i) && IrSemantics.IsCall(i) && Has(w, k)
    requires Agree(m0, m) && Placed(m0, m1, n, ws) && TailBytes(w, IrSemantics.Top(fs)) == 8 * n
    requires AtCall(w, IrSemantics.Top(fs)) && Called(m1, m2, w.p.addr[k], ReturnAddr(w, IrSemantics.Top(fs)))
    requires m1.regs[RSP] - 8 in m1.stack
    ensures Entering(w, fs, k, ws, m2) && m2.heap == h
  {
    hide CodeAt, SizeAll, Ready, FrameTop, FrameRsp, Unwound, CodeAddr, LiveHomes, FrameBytes, Savers, Suspended,
        ReturnAddr,
         TailBytes, ArgsAt, AtCall;
    SuspendHere(w, fs, h, m, i);
    forall p: Phys
      ensures m2.regs[PhysId(p)] == m.regs[PhysId(p)]
    {
      PhysFacts(p);
    }
    SuspendedDep(w, fs, m, m2);
    ArgsCalled(m1, m2, w.p.addr[k], ReturnAddr(w, IrSemantics.Top(fs)), ws);
    assert m2.stack.Keys == m.stack.Keys;
    CellsSame(m.stack, m2.stack, w.lo, w.hi);
  }
}
