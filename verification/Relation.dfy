/** How a machine state represents an IR state: where code sits, where each
    frame lies on the stack, which homes hold which vregs. */
module Relation {
  import opened Ir
  import opened Words
  import opened Liveness
  import IrSemantics
  import opened Locations
  import opened RegAlloc
  import opened Machine
  import opened Emission
  import opened Execution
  import opened Instructions
  import opened Frames

  type Frame = IrSemantics.Frame

  /** A linked program on a machine: allocations, placed code, the stack region
      `[lo, hi)`, and what the outermost caller expects back: its return address
      and callee-saved registers. */
  datatype World = World(p: IrSemantics.Prog, allocs: seq<Allocation>, code: Code,
                         lo: int, hi: int, halt: Word, regs0: Regs, stack0: Stack)

  predicate Has(w: World, k: nat) { k < |w.p.funcs| == |w.allocs| == |w.p.addr| }

  function RecvOf(p: IrSemantics.Prog): seq<bool> { seq(|p.funcs|, k requires 0 <= k < |p.funcs| => p.funcs[k].receiver) }

  function FuncAsm(w: World, k: nat): seq<Asm>
    requires Has(w, k)
  {
    FnAsm(w.p.funcs[k], w.allocs[k], RecvOf(w.p))
  }

  function BlockStarts(w: World, k: nat): seq<int>
    requires Has(w, k)
  {
    seq(|w.p.funcs[k].blocks|, b requires 0 <= b < |w.p.funcs[k].blocks| =>
      w.p.addr[k] + BlockOff(w.p.funcs[k], w.allocs[k], RecvOf(w.p), b))
  }

  function CtxOf(w: World, k: nat): Ctx
    requires Has(w, k)
  {
    Ctx(w.p.addr, BlockStarts(w, k))
  }

  // ---------- assumptions on the program ----------

  /** Instructions of the subset, and no handler terminators. */
  predicate InSubset(f: Func) {
    && (forall b, i :: 0 <= b < |f.blocks| && 0 <= i < |f.blocks[b].instrs| ==> Supported(f.blocks[b].instrs[i]))
    && Plain(f)
  }

  predicate Plain(f: Func) {
    forall b :: 0 <= b < |f.blocks| ==> !f.blocks[b].term.Unwind? && !f.blocks[b].term.Rethrow?
  }

  ghost predicate FnOk(w: World, k: nat)
    requires Has(w, k)
  {
    var f, a := w.p.funcs[k], w.allocs[k];
    && WellFormed(f) && f.blocks != [] && InSubset(f)
    && AllocationOf(f, a)
    && CodeAt(w.code, w.p.addr[k], FuncAsm(w, k), CtxOf(w, k))
    && w.p.addr[k] + SizeAll(FuncAsm(w, k)) < B64
  }

  ghost predicate Ready(w: World) {
    && |w.p.funcs| == |w.allocs| == |w.p.addr|
    && 0 <= w.lo <= w.hi < B64 && w.hi % 8 == 0
    && forall k :: 0 <= k < |w.p.funcs| ==> FnOk(w, k)
  }

  // ---------- code addresses ----------

  predicate InWorld(w: World, fr: Frame) { Has(w, fr.fidx) && IrSemantics.AtPoint(w.p, fr) }

  function FnOf(w: World, fr: Frame): Func
    requires InWorld(w, fr)
  {
    w.p.funcs[fr.fidx]
  }

  function AllocOf(w: World, fr: Frame): Allocation
    requires InWorld(w, fr)
  {
    w.allocs[fr.fidx]
  }

  function PointOf(fr: Frame): Point { Point(fr.block, fr.pos) }

  /** Address of the code for a frame's current position. */
  function CodeAddr(w: World, fr: Frame): int
    requires InWorld(w, fr)
  {
    w.p.addr[fr.fidx] + InstrOff(FnOf(w, fr), AllocOf(w, fr), RecvOf(w.p), fr.block, fr.pos)
  }

  lemma BlocksAsmAppend(a: Allocation, recv: seq<bool>, xs: seq<Block>, ys: seq<Block>)
    ensures BlocksAsm(a, recv, xs + ys) == BlocksAsm(a, recv, xs) + BlocksAsm(a, recv, ys)
  {
    if xs == [] {
      assert xs + ys == ys;
    } else {
      assert (xs + ys)[1..] == xs[1..] + ys;
      BlocksAsmAppend(a, recv, xs[1..], ys);
    }
  }

  lemma InstrsAsmAppend(loc: Locs, recv: seq<bool>, xs: seq<Instr>, ys: seq<Instr>)
    ensures InstrsAsm(loc, recv, xs + ys) == InstrsAsm(loc, recv, xs) + InstrsAsm(loc, recv, ys)
  {
    if xs == [] {
      assert xs + ys == ys;
    } else {
      assert (xs + ys)[1..] == xs[1..] + ys;
      InstrsAsmAppend(loc, recv, xs[1..], ys);
    }
  }

  lemma BlockSplit(a: Allocation, recv: seq<bool>, bs: seq<Block>, b: nat)
    requires b < |bs|
    ensures BlocksAsm(a, recv, bs)
         == BlocksAsm(a, recv, bs[..b]) + (BlockAsm(a, recv, bs[b]) + BlocksAsm(a, recv, bs[b + 1..]))
  {
    assert bs == bs[..b] + bs[b..];
    BlocksAsmAppend(a, recv, bs[..b], bs[b..]);
    assert bs[b..][1..] == bs[b + 1..];
  }

  lemma InstrSplit(loc: Locs, recv: seq<bool>, xs: seq<Instr>, i: nat)
    requires i < |xs|
    ensures InstrsAsm(loc, recv, xs)
         == InstrsAsm(loc, recv, xs[..i]) + (InstrAsm(loc, recv, xs[i]) + InstrsAsm(loc, recv, xs[i + 1..]))
    ensures InstrsAsm(loc, recv, xs[..i + 1]) == InstrsAsm(loc, recv, xs[..i]) + InstrAsm(loc, recv, xs[i])
  {
    assert xs == xs[..i] + xs[i..];
    InstrsAsmAppend(loc, recv, xs[..i], xs[i..]);
    assert xs[i..][1..] == xs[i + 1..];
    assert xs[..i + 1] == xs[..i] + [xs[i]];
    InstrsAsmAppend(loc, recv, xs[..i], [xs[i]]);
    assert [xs[i]][1..] == [];
  }

  /** The code of a whole block sits at its start. */
  lemma BlockCode(w: World, k: nat, b: nat)
    requires Ready(w) && Has(w, k) && b < |w.p.funcs[k].blocks|
    ensures CodeAt(w.code, BlockStarts(w, k)[b],
                   BlockAsm(w.allocs[k], RecvOf(w.p), w.p.funcs[k].blocks[b]), CtxOf(w, k))
  {
    hide CodeAt, SizeAll, BlocksAsm, BlockAsm, Prologue, WellFormed, AllocationOf, InSubset;
    var f, a, recv, ctx := w.p.funcs[k], w.allocs[k], RecvOf(w.p), CtxOf(w, k);
    assert FnOk(w, k);
    Split2(w.code, w.p.addr[k], Prologue(f, a), BlocksAsm(a, recv, f.blocks), ctx);
    BlockSplit(a, recv, f.blocks, b);
    var at := w.p.addr[k] + SizeAll(Prologue(f, a));
    Split2(w.code, at, BlocksAsm(a, recv, f.blocks[..b]),
           BlockAsm(a, recv, f.blocks[b]) + BlocksAsm(a, recv, f.blocks[b + 1..]), ctx);
    Split2(w.code, at + SizeAll(BlocksAsm(a, recv, f.blocks[..b])), BlockAsm(a, recv, f.blocks[b]),
           BlocksAsm(a, recv, f.blocks[b + 1..]), ctx);
  }

  lemma InstrWithin(code: Code, ctx: Ctx, at: int, loc: Locs, recv: seq<bool>, xs: seq<Instr>, i: nat)
    requires CodeAt(code, at, InstrsAsm(loc, recv, xs), ctx) && i < |xs|
    ensures CodeAt(code, at + SizeAll(InstrsAsm(loc, recv, xs[..i])), InstrAsm(loc, recv, xs[i]), ctx)
    ensures SizeAll(InstrsAsm(loc, recv, xs[..i + 1]))
         == SizeAll(InstrsAsm(loc, recv, xs[..i])) + SizeAll(InstrAsm(loc, recv, xs[i]))
  {
    hide CodeAt, SizeAll, InstrsAsm, InstrAsm;
    InstrSplit(loc, recv, xs, i);
    var pre, here, post := InstrsAsm(loc, recv, xs[..i]), InstrAsm(loc, recv, xs[i]), InstrsAsm(loc, recv, xs[i + 1..]);
    Split2(code, at, pre, here + post, ctx);
    Split2(code, at + SizeAll(pre), here, post, ctx);
    SizeAppend(pre, here);
  }

  /** The code of the current instruction sits at the current address, the next
      position's right after it. */
  lemma InstrCode(w: World, fr: Frame, i: Instr)
    requires Ready(w) && InWorld(w, fr) && IrSemantics.InstrOf(w.p, fr) == Some(i)
    ensures CodeAt(w.code, CodeAddr(w, fr), InstrAsm(AllocOf(w, fr).loc, RecvOf(w.p), i), CtxOf(w, fr.fidx))
    ensures InWorld(w, fr.(pos := fr.pos + 1))
    ensures CodeAddr(w, fr.(pos := fr.pos + 1))
         == CodeAddr(w, fr) + SizeAll(InstrAsm(AllocOf(w, fr).loc, RecvOf(w.p), i))
  {
    hide CodeAt, SizeAll, BlocksAsm, InstrsAsm, InstrAsm, TermAsm, Prologue, FnOk, Ready, CtxOf, BlockOff;
    var k, b := fr.fidx, fr.block;
    var a, recv, ctx := w.allocs[k], RecvOf(w.p), CtxOf(w, k);
    var block := w.p.funcs[k].blocks[b];
    BlockCode(w, k, b);
    var at := BlockStarts(w, k)[b];
    Split2(w.code, at, InstrsAsm(a.loc, recv, block.instrs), TermAsm(a, block.term), ctx);
    InstrWithin(w.code, ctx, at, a.loc, recv, block.instrs, fr.pos);
  }

  lemma TermCode(w: World, fr: Frame)
    requires Ready(w) && InWorld(w, fr) && IrSemantics.InstrOf(w.p, fr) == None
    ensures CodeAt(w.code, CodeAddr(w, fr), TermAsm(AllocOf(w, fr), FnOf(w, fr).blocks[fr.block].term), CtxOf(w, fr.fidx))
  {
    hide CodeAt, SizeAll, BlocksAsm, InstrsAsm, TermAsm, Prologue, FnOk;
    var k, b := fr.fidx, fr.block;
    var a, recv, ctx := w.allocs[k], RecvOf(w.p), CtxOf(w, k);
    var block := w.p.funcs[k].blocks[b];
    BlockCode(w, k, b);
    assert block.instrs[..fr.pos] == block.instrs;
    Split2(w.code, BlockStarts(w, k)[b], InstrsAsm(a.loc, recv, block.instrs), TermAsm(a, block.term), ctx);
  }

  lemma BlockEntryAddr(w: World, fr: Frame, b: nat)
    requires InWorld(w, fr) && b < |FnOf(w, fr).blocks|
    ensures InWorld(w, fr.(block := b, pos := 0))
    ensures CodeAddr(w, fr.(block := b, pos := 0)) == BlockStarts(w, fr.fidx)[b]
  {
    assert FnOf(w, fr).blocks[b].instrs[..0] == [];
  }

  // ---------- calls ----------

  /** Code of a call up to and including the call instruction. */
  function CallHead(loc: Locs, recv: seq<bool>, i: Instr): seq<Asm>
    requires IrSemantics.IsCall(i)
  {
    match i
    case CallFn(_, fidx, args) => PlaceArgs(loc, args) + [Asm.CallFn(fidx)]
    case CallStatic(_, fidx, args) => StaticPlace(loc, TakesReceiver(recv, fidx), args) + [Asm.CallFn(fidx)]
    case CallFnAddr(_, target, args) => Get(R11, LocOf(loc, target)) + PlaceArgs(loc, args) + [CallReg(R11)]
  }

  /** Code of a call after the return: drop the stack arguments, store the result. */
  function CallTail(loc: Locs, i: Instr): seq<Asm>
    requires IrSemantics.IsCall(i)
  {
    Cleanup(|i.args|) + Put(RAX, LocOf(loc, i.dst))
  }

  lemma CallSplit(loc: Locs, recv: seq<bool>, i: Instr)
    requires IrSemantics.IsCall(i)
    ensures InstrAsm(loc, recv, i) == CallHead(loc, recv, i) + CallTail(loc, i)
  {
  }

  /** Words a call leaves pushed while the callee runs. */
  function PushedWords(recv: seq<bool>, i: Instr): nat
    requires IrSemantics.IsCall(i)
  {
    var regs := if i.CallStatic? && TakesReceiver(recv, i.fidx) then 5 else 6;
    if |i.args| > regs then |i.args| - regs else 0
  }

  /** Words the code after a call removes. */
  function RemovedWords(i: Instr): nat
    requires IrSemantics.IsCall(i)
  {
    if |i.args| > 6 then |i.args| - 6 else 0
  }

  /** The call sequence is balanced exactly when it is not a receiver-taking
      static call with more than five arguments. */
  lemma WordsBalance(recv: seq<bool>, i: Instr)
    requires IrSemantics.IsCall(i)
    ensures PushedWords(recv, i) == RemovedWords(i) <==>
              !(i.CallStatic? && TakesReceiver(recv, i.fidx) && |i.args| > 5)
  {
  }

  predicate AtCall(w: World, fr: Frame) {
    InWorld(w, fr) && IrSemantics.InstrOf(w.p, fr).Some? && IrSemantics.IsCall(IrSemantics.InstrOf(w.p, fr).value)
  }

  function CallOf(w: World, fr: Frame): Instr
    requires AtCall(w, fr)
  {
    IrSemantics.InstrOf(w.p, fr).value
  }

  /** A receiver-taking static call has at most five arguments: with more, the
      call site pushes one word more than it removes. */
  predicate StaticFits(p: IrSemantics.Prog, i: Instr) {
    i.CallStatic? && TakesReceiver(RecvOf(p), i.fidx) ==> |i.args| <= 5
  }

  /** The pending call of a suspended frame is such. */
  predicate PendingFits(w: World, fr: Frame) { AtCall(w, fr) ==> StaticFits(w.p, CallOf(w, fr)) }

  /** Where a suspended frame resumes. */
  function ReturnAddr(w: World, fr: Frame): int
    requires AtCall(w, fr)
  {
    CodeAddr(w, fr) + SizeAll(CallHead(AllocOf(w, fr).loc, RecvOf(w.p), CallOf(w, fr)))
  }

  function ReturnTo(w: World, fs: seq<Frame>): int {
    if fs == [] then w.halt else if AtCall(w, IrSemantics.Top(fs)) then ReturnAddr(w, IrSemantics.Top(fs)) else 0
  }

  // ---------- frame geometry ----------

  function FrameSize(w: World, fr: Frame): nat {
    if InWorld(w, fr) then 16 + FrameBytes(AllocOf(w, fr)) + 8 * |Savers(AllocOf(w, fr))| else 16
  }

  function TailBytes(w: World, fr: Frame): nat {
    if AtCall(w, fr) then 8 * PushedWords(RecvOf(w.p), CallOf(w, fr)) else 0
  }

  /** rsp just before the call that created the top frame pushed its return address. */
  function FrameTop(w: World, fs: seq<Frame>): int
    requires fs != []
    decreases |fs|, 0
  {
    if |fs| == 1 then w.hi
    else FrameRsp(w, IrSemantics.Rest(fs)) - TailBytes(w, IrSemantics.Top(IrSemantics.Rest(fs)))
  }

  /** rsp while the top frame is between instructions. */
  function FrameRsp(w: World, fs: seq<Frame>): int
    requires fs != []
    decreases |fs|, 1
  {
    FrameTop(w, fs) - FrameSize(w, IrSemantics.Top(fs))
  }

  /** The stack from here up belongs to `fs` and their outside caller. */
  function Floor(w: World, fs: seq<Frame>): int { if fs == [] then w.hi else FrameRsp(w, fs) }

  lemma RoundedUp(n: nat)
    ensures RoundUp16(n) % 8 == 0 && n <= RoundUp16(n)
  {
  }

  /** The frame is whole words, and its slots fit in the reserved bytes. */
  lemma FrameBytesFit(a: Allocation)
    ensures FrameBytes(a) % 8 == 0 && 8 * a.spills <= FrameBytes(a)
  {
    hide Savers, RoundUp16;
    RoundedUp(a.spills * 8);
  }

  lemma EightTimes(x: int, y: int, n: int)
    requires x % 8 == 0 && y % 8 == 0
    ensures (x + y + 8 * n) % 8 == 0 && (x - y) % 8 == 0
  {
  }

  lemma FrameSizeEven(w: World, fr: Frame)
    ensures FrameSize(w, fr) % 8 == 0
  {
    hide Savers, FrameBytes, InWorld, CodeAt;
    if InWorld(w, fr) {
      FrameBytesFit(AllocOf(w, fr));
      EightTimes(FrameBytes(AllocOf(w, fr)), 16, |Savers(AllocOf(w, fr))|);
    }
  }

  lemma FrameAligned(w: World, fs: seq<Frame>)
    requires fs != [] && w.hi % 8 == 0
    ensures FrameTop(w, fs) % 8 == 0 && FrameRsp(w, fs) % 8 == 0
    ensures FrameTop(w, fs) <= w.hi && FrameRsp(w, fs) <= FrameTop(w, fs)
  {
    hide FrameSize, TailBytes;
    FrameSizeEven(w, IrSemantics.Top(fs));
    if |fs| > 1 {
      var below := IrSemantics.Rest(fs);
      FrameAligned(w, below);
      TailEven(w, IrSemantics.Top(below));
      EightTimes(FrameRsp(w, below), TailBytes(w, IrSemantics.Top(below)), 0);
    }
    EightTimes(FrameTop(w, fs), FrameSize(w, IrSemantics.Top(fs)), 0);
  }

  lemma TailEven(w: World, fr: Frame)
    ensures TailBytes(w, fr) % 8 == 0 && TailBytes(w, fr) >= 0
  {
    hide AtCall, CodeAt;
  }

  // ---------- suspended frames ----------

  /** The machine as the caller of the top frame will see it: saved registers and
      rbp taken back from the frame. */
  function Unwound(w: World, fs: seq<Frame>, v: M): M
    requires fs != [] && InWorld(w, IrSemantics.Top(fs))
  {
    var a, top := AllocOf(w, IrSemantics.Top(fs)), FrameTop(w, fs);
    v.(regs := Restored(v.regs, v.stack, top - 16 - FrameBytes(a), Savers(a))[RBP := Cell(v.stack, top - 16)])
  }

  ghost predicate SameAbove(s: Stack, s': Stack, b: int) {
    forall a :: a >= b ==> (a in s <==> a in s') && Cell(s, a) == Cell(s', a)
  }

  ghost predicate SamePool(r: Regs, r': Regs) {
    (forall p: Phys :: r[PhysId(p)] == r'[PhysId(p)]) && r[RBP] == r'[RBP]
  }

  ghost predicate HomeHolds(v: M, l: Loc, x: Word) { HomeOk(v, l) && Home(v, l) == x }

  /** Every vreg live after the pending call, its result aside, is in its home. */
  ghost predicate AwaitHomes(w: World, fr: Frame, v: M)
    requires AtCall(w, fr)
  {
    forall u :: u in fr.env && u != CallOf(w, fr).dst && LiveAt(FnOf(w, fr), Point(fr.block, fr.pos + 1), u) ==>
      HomeHolds(v, LocOf(AllocOf(w, fr).loc, u), fr.env[u])
  }

  /** `fs` are suspended frames, and `v` is the machine as seen on return to the last. */
  ghost predicate Suspended(w: World, fs: seq<Frame>, v: M)
    decreases |fs|
  {
    if fs == [] then
      SamePool(w.regs0, v.regs) && SameAbove(w.stack0, v.stack, w.hi)
    else
      var fr := IrSemantics.Top(fs);
      && AtCall(w, fr)
      && v.regs[RBP] == FrameTop(w, fs) - 16
      && Cell(v.stack, FrameTop(w, fs) - 8) == ReturnTo(w, IrSemantics.Rest(fs))
      && AwaitHomes(w, fr, v)
      && Suspended(w, IrSemantics.Rest(fs), Unwound(w, fs, v))
  }

  // ---------- the relation ----------

  ghost predicate LiveHomes(w: World, fr: Frame, m: M)
    requires InWorld(w, fr)
  {
    forall u :: u in fr.env && LiveAt(FnOf(w, fr), PointOf(fr), u) ==>
      HomeHolds(m, LocOf(AllocOf(w, fr).loc, u), fr.env[u])
  }

  /** The stack side of the relation: registers, cells, and all frames below. */
  ghost predicate FramesOk(w: World, fs: seq<Frame>, m: M) {
    && fs != [] && InWorld(w, IrSemantics.Top(fs))
    && w.lo <= FrameRsp(w, fs)
    && m.regs[RSP] == FrameRsp(w, fs)
    && m.regs[RBP] == FrameTop(w, fs) - 16
    && Cells(m.stack, w.lo, w.hi) && Separate(m)
    && Cell(m.stack, FrameTop(w, fs) - 8) == ReturnTo(w, IrSemantics.Rest(fs))
    && Suspended(w, IrSemantics.Rest(fs), Unwound(w, fs, m))
  }

  /** `m` represents the running IR state `fs`, `h`. */
  ghost predicate Related(w: World, fs: seq<Frame>, h: Heap, m: M) {
    && FramesOk(w, fs, m)
    && m.rip == CodeAddr(w, IrSemantics.Top(fs))
    && m.heap == h
    && LiveHomes(w, IrSemantics.Top(fs), m)
  }
}
