/** The emitted code simulates the IR, one IR step at a time: straight-line
    instructions. */
module Simulation {
  import opened Ir
  import opened Words
  import IrSemantics
  import opened Locations
  import opened Machine
  import opened Emission
  import opened Execution
  import opened Instructions
  import opened Frames
  import opened Relation
  import opened Preservation

  /** The machine is about to run instruction `i` of the top frame. */
  ghost predicate Here(w: World, fs: seq<Frame>, h: Heap, m: M, i: Instr) {
    Ready(w) && Related(w, fs, h, m) && fs != [] && Executing(w, IrSemantics.Top(fs), i)
  }

  function L(w: World, fs: seq<Frame>, u: VReg): Loc
    requires fs != [] && InWorld(w, IrSemantics.Top(fs))
  {
    LocOf(AllocOf(w, IrSemantics.Top(fs)).loc, u)
  }

  function Env(fs: seq<Frame>): IrSemantics.Env
    requires fs != []
  {
    IrSemantics.Top(fs).env
  }

  /** Everything a case needs: the code is here, and an operand is in its home. */
  lemma CodeIsHere(w: World, fs: seq<Frame>, h: Heap, m: M, i: Instr)
    requires Here(w, fs, h, m, i)
    ensures CodeAt(w.code, m.rip, InstrAsm(AllocOf(w, IrSemantics.Top(fs)).loc, RecvOf(w.p), i),
                   CtxOf(w, IrSemantics.Top(fs).fidx))
  {
    hide CodeAt, SizeAll, Suspended, InstrAsm, Ready, FrameTop, FrameRsp, LiveHomes, Unwound;
    InstrCode(w, IrSemantics.Top(fs), i);
  }

  lemma OperandIsHome(w: World, fs: seq<Frame>, h: Heap, m: M, i: Instr, u: VReg)
    requires Here(w, fs, h, m, i) && u in Uses(i) && u in Env(fs)
    ensures HomeHolds(m, L(w, fs, u), Env(fs)[u])
  {
    hide CodeAt, SizeAll, Suspended, Ready, FrameTop, FrameRsp, Unwound, LiveHomes;
    OperandHome(w, IrSemantics.Top(fs), m, u);
  }

  lemma ResultHomeOk(w: World, fs: seq<Frame>, h: Heap, m: M, i: Instr, d: VReg)
    requires Here(w, fs, h, m, i) && Def(i) == Some(d)
    ensures HomeOk(m, L(w, fs, d)) && d < FnOf(w, IrSemantics.Top(fs)).vregs
  {
    hide CodeAt, SizeAll, Suspended, Ready, FrameTop, FrameRsp, Unwound, LiveHomes;
    DefinedInRange(w, IrSemantics.Top(fs), i, d);
    HomeIsOk(w, fs, m, d);
  }

  /** What running `i` has to achieve when its effect is `Set(d, x)`. */
  ghost predicate RunsTo(w: World, fs: seq<Frame>, m: M, i: Instr, d: VReg, x: Word, m': M)
    requires fs != [] && InWorld(w, IrSemantics.Top(fs))
  {
    Sets(w.code, m, m', SizeAll(InstrAsm(AllocOf(w, IrSemantics.Top(fs)).loc, RecvOf(w.p), i)), L(w, fs, d), x)
  }

  function Result(w: World, fs: seq<Frame>, h: Heap, i: Instr): IrSemantics.Effect
    requires fs != []
  {
    IrSemantics.EvalInstr(w.p, Env(fs), h, i)
  }

  lemma SetsMove(w: World, fs: seq<Frame>, h: Heap, m: M, i: Instr, d: VReg, x: Word) returns (m': M)
    requires Here(w, fs, h, m, i) && Result(w, fs, h, i) == IrSemantics.Set(d, x)
    requires i.Const? || i.Mov? || i.Neg?
    ensures Def(i) == Some(d) && RunsTo(w, fs, m, i, d, x, m')
  {
    hide CodeAt, SizeAll, Related, Ready, Sets, ConstAsm, MovAsm, NegAsm, HomeOk;
    CodeIsHere(w, fs, h, m, i);
    ResultHomeOk(w, fs, h, m, i, d);
    var ctx := CtxOf(w, IrSemantics.Top(fs).fidx);
    match i {
      case Const(_, imm) => m' := RunConst(w.code, ctx, m, L(w, fs, d), imm);
      case Mov(_, a) =>
        OperandIsHome(w, fs, h, m, i, a);
        m' := RunMov(w.code, ctx, m, L(w, fs, d), L(w, fs, a));
      case Neg(_, a) =>
        OperandIsHome(w, fs, h, m, i, a);
        m' := RunNeg(w.code, ctx, m, L(w, fs, d), L(w, fs, a));
    }
  }

  lemma SetsBinary(w: World, fs: seq<Frame>, h: Heap, m: M, i: Instr, d: VReg, x: Word) returns (m': M)
    requires Here(w, fs, h, m, i) && Result(w, fs, h, i) == IrSemantics.Set(d, x)
    requires i.Bin? || i.Cmp?
    ensures Def(i) == Some(d) && RunsTo(w, fs, m, i, d, x, m')
  {
    hide CodeAt, SizeAll, Related, Ready, Sets, BinAsm, CmpAsm, HomeOk, IrSemantics.EvalBin, IrSemantics.EvalCmp;
    CodeIsHere(w, fs, h, m, i);
    ResultHomeOk(w, fs, h, m, i, d);
    OperandIsHome(w, fs, h, m, i, i.a);
    OperandIsHome(w, fs, h, m, i, i.b);
    var ctx := CtxOf(w, IrSemantics.Top(fs).fidx);
    match i {
      case Bin(_, op, a, b) => m' := RunBin(w.code, ctx, m, L(w, fs, d), op, L(w, fs, a), L(w, fs, b));
      case Cmp(_, op, a, b) => m' := RunCmp(w.code, ctx, m, L(w, fs, d), op, L(w, fs, a), L(w, fs, b));
    }
  }

  lemma SetsMemory(w: World, fs: seq<Frame>, h: Heap, m: M, i: Instr, d: VReg, x: Word) returns (m': M)
    requires Here(w, fs, h, m, i) && Result(w, fs, h, i) == IrSemantics.Set(d, x) && m.heap == h && Separate(m)
    requires i.LoadField? || i.LoadByte? || i.MemCmp? || i.FnAddr?
    ensures Def(i) == Some(d) && RunsTo(w, fs, m, i, d, x, m')
  {
    hide CodeAt, SizeAll, Related, Sets, LoadAsm, LoadByteAsm, HomeOk, IrSemantics.SameBytes, CompareLoop, Read64, Separate;
    CodeIsHere(w, fs, h, m, i);
    ResultHomeOk(w, fs, h, m, i, d);
    var ctx := CtxOf(w, IrSemantics.Top(fs).fidx);
    match i {
      case LoadField(_, base, off) =>
        OperandIsHome(w, fs, h, m, i, base);
        m' := RunLoad(w.code, ctx, m, L(w, fs, d), L(w, fs, base), off);
      case LoadByte(_, base, off) =>
        OperandIsHome(w, fs, h, m, i, base);
        m' := RunLoadByte(w.code, ctx, m, L(w, fs, d), L(w, fs, base), off);
      case MemCmp(_, a, b, len) =>
        OperandIsHome(w, fs, h, m, i, a);
        OperandIsHome(w, fs, h, m, i, b);
        OperandIsHome(w, fs, h, m, i, len);
        m' := RunMemCmp(w.code, ctx, m, L(w, fs, d), L(w, fs, a), L(w, fs, b), L(w, fs, len));
      case FnAddr(_, fidx) =>
        m' := RunFnAddr(w.code, ctx, m, L(w, fs, d), fidx);
    }
  }

  lemma SetsAny(w: World, fs: seq<Frame>, h: Heap, m: M, i: Instr, d: VReg, x: Word) returns (m': M)
    requires Here(w, fs, h, m, i) && Result(w, fs, h, i) == IrSemantics.Set(d, x) && m.heap == h && Separate(m)
    ensures Def(i) == Some(d) && RunsTo(w, fs, m, i, d, x, m')
  {
    hide CodeAt, SizeAll, Related, Ready, Sets, RunsTo;
    if i.Const? || i.Mov? || i.Neg? {
      m' := SetsMove(w, fs, h, m, i, d, x);
    } else if i.Bin? || i.Cmp? {
      m' := SetsBinary(w, fs, h, m, i, d, x);
    } else {
      m' := SetsMemory(w, fs, h, m, i, d, x);
    }
  }

  // ---------- instructions that define a vreg ----------

  /** The frames after an instruction that sets `d`. */
  function SetFrames(fs: seq<Frame>, d: VReg, x: Word): seq<Frame>
    requires fs != []
  {
    IrSemantics.Rest(fs) + [Advanced(IrSemantics.Top(fs), d, x)]
  }

  lemma RelatedAfterSet(w: World, fs: seq<Frame>, h: Heap, m: M, i: Instr, d: VReg, x: Word, m': M)
    requires Here(w, fs, h, m, i) && Def(i) == Some(d) && RunsTo(w, fs, m, i, d, x, m')
    ensures Star(w.code, m, m') && Related(w, SetFrames(fs, d, x), h, m')
  {
    hide CodeAt, SizeAll, InstrAsm, Star, Agree, SetHome, Ready, LiveHomes, Suspended, Unwound, FrameTop, FrameRsp,
         Cells, Separate;
    var fr := IrSemantics.Top(fs);
    var fr' := Advanced(fr, d, x);
    InstrCode(w, fr, i);
    DefinedInRange(w, fr, i, d);
    SameHeap(m, m', L(w, fs, d), x);
    FramesAfterSet(w, fs, m, m', d, x);
    LiveAfterSet(w, fs, m, m', i, d, x);
    FramesRetop(w, fs, m', fr');
    var fs' := SetFrames(fs, d, x);
    assert IrSemantics.Top(fs') == fr';
  }

  lemma SameHeap(m: M, m': M, l: Loc, x: Word)
    requires Agree(m', SetHome(m, l, x))
    ensures m'.heap == m.heap
  {
  }

  lemma RelatedHeap(w: World, fs: seq<Frame>, h: Heap, m: M)
    requires Related(w, fs, h, m)
    ensures m.heap == h && Separate(m)
  {
  }

  /** One instruction that sets a vreg. */
  lemma StepSet(w: World, fs: seq<Frame>, h: Heap, m: M, i: Instr, d: VReg, x: Word) returns (m': M)
    requires Here(w, fs, h, m, i) && Result(w, fs, h, i) == IrSemantics.Set(d, x)
    ensures Star(w.code, m, m') && Related(w, SetFrames(fs, d, x), h, m')
  {
    hide CodeAt, SizeAll, RunsTo, Ready, Related, Star;
    RelatedHeap(w, fs, h, m);
    m' := SetsAny(w, fs, h, m, i, d, x);
    RelatedAfterSet(w, fs, h, m, i, d, x, m');
  }

  // ---------- instructions that write memory ----------

  function NextFrames(fs: seq<Frame>): seq<Frame>
    requires fs != []
  {
    IrSemantics.Rest(fs) + [IrSemantics.Top(fs).(pos := IrSemantics.Top(fs).pos + 1)]
  }

  lemma {:induction false} CopyKeys(h: Heap, to: Word, src: Word, n: nat, h': Heap)
    requires IrSemantics.CopyBytes(h, to, src, n) == Some(h')
    ensures h'.Keys == h.Keys
    decreases n
  {
    if n > 0 {
      CopyKeys(h[to := h[src]], Offset(to, 1), Offset(src, 1), n - 1, h');
    }
  }

  lemma RunsMemory(w: World, fs: seq<Frame>, h: Heap, m: M, i: Instr, h': Heap) returns (m': M)
    requires Here(w, fs, h, m, i) && Result(w, fs, h, i) == IrSemantics.Mem(h') && m.heap == h && Separate(m)
    ensures Def(i) == None && h'.Keys == h.Keys
    ensures Writes(w.code, m, m', SizeAll(InstrAsm(AllocOf(w, IrSemantics.Top(fs)).loc, RecvOf(w.p), i)), h')
  {
    hide CodeAt, SizeAll, Related, Writes, Ready, HomeOk, IrSemantics.CopyBytes, CopyLoop, Write, Separate;
    CodeIsHere(w, fs, h, m, i);
    var ctx := CtxOf(w, IrSemantics.Top(fs).fidx);
    match i {
      case StoreField(base, off, src) =>
        OperandIsHome(w, fs, h, m, i, base);
        OperandIsHome(w, fs, h, m, i, src);
        WriteKeys(h, Offset(Env(fs)[base], off), 8, Env(fs)[src]);
        m' := RunStore(w.code, ctx, m, L(w, fs, base), off, L(w, fs, src));
      case MemCpy(to, src, len) =>
        OperandIsHome(w, fs, h, m, i, to);
        OperandIsHome(w, fs, h, m, i, src);
        OperandIsHome(w, fs, h, m, i, len);
        CopyKeys(h, Env(fs)[to], Env(fs)[src], Env(fs)[len], h');
        m' := RunMemCpy(w.code, ctx, m, L(w, fs, to), L(w, fs, src), L(w, fs, len), h');
    }
  }

  lemma StepMem(w: World, fs: seq<Frame>, h: Heap, m: M, i: Instr, h': Heap) returns (m': M)
    requires Here(w, fs, h, m, i) && Result(w, fs, h, i) == IrSemantics.Mem(h')
    ensures Star(w.code, m, m') && Related(w, NextFrames(fs), h', m')
  {
    hide CodeAt, SizeAll, InstrAsm, Star, Ready, LiveHomes, Suspended, Unwound, FrameTop, FrameRsp, Cells, Separate,
         IrSemantics.EvalInstr;
    RelatedHeap(w, fs, h, m);
    m' := RunsMemory(w, fs, h, m, i, h');
    var fr := IrSemantics.Top(fs);
    var fr' := fr.(pos := fr.pos + 1);
    InstrCode(w, fr, i);
    FramesAfterHeap(w, fs, m, m', h');
    LiveAfterHeap(w, fr, m, m', i, h');
    FramesRetop(w, fs, m', fr');
    assert IrSemantics.Top(NextFrames(fs)) == fr';
  }
}
