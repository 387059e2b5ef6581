/** Facts the simulation uses at every step: suspended frames survive whatever
    the running function does inside its own frame, and storing a result keeps
    every other live home. */
module Preservation {
  import opened Ir
  import opened Words
  import opened Liveness
  import opened Intervals
  import IrSemantics
  import opened Locations
  import opened RegAlloc
  import opened Machine
  import opened Emission
  import opened Execution
  import opened Instructions
  import opened Frames
  import opened Relation

  /** A location of the function lies in its frame. */
  lemma SlotInFrame(w: World, fr: Frame, u: VReg)
    requires Ready(w) && InWorld(w, fr) && u < FnOf(w, fr).vregs
    ensures var l := LocOf(AllocOf(w, fr).loc, u);
            u < |AllocOf(w, fr).loc| && (l.Slot? ==> 8 * (l.k + 1) <= FrameBytes(AllocOf(w, fr)))
  {
    hide CodeAt, SizeAll, FnAsm, InSubset, FrameBytes;
    assert FnOk(w, fr.fidx);
    Located(FnOf(w, fr), AllocOf(w, fr), u);
    FrameBytesFit(AllocOf(w, fr));
  }

  lemma LiveInRange(w: World, fr: Frame, p: Point, u: VReg)
    requires Ready(w) && InWorld(w, fr) && LiveAt(FnOf(w, fr), p, u)
    ensures u < FnOf(w, fr).vregs
  {
    hide CodeAt, SizeAll, FnAsm, InSubset;
    assert FnOk(w, fr.fidx);
    LiveBelowVregs(FnOf(w, fr), p, u);
  }

  /** A slot's value only depends on the cells of its frame. */
  lemma HoldsDep(v: M, v': M, l: Loc, x: Word, b: int)
    requires HomeHolds(v, l, x) && SamePool(v.regs, v'.regs) && SameAbove(v.stack, v'.stack, b)
    requires l.Slot? ==> b <= HomeAddr(v, l.k)
    ensures HomeHolds(v', l, x)
  {
    if l.Slot? { assert Cell(v'.stack, HomeAddr(v, l.k)) == x; }
  }

  lemma AwaitDep(w: World, fs: seq<Frame>, v: M, v': M)
    requires Ready(w) && fs != [] && AtCall(w, IrSemantics.Top(fs)) && AwaitHomes(w, IrSemantics.Top(fs), v)
    requires v.regs[RBP] == FrameTop(w, fs) - 16
    requires SamePool(v.regs, v'.regs) && SameAbove(v.stack, v'.stack, FrameRsp(w, fs))
    ensures AwaitHomes(w, IrSemantics.Top(fs), v')
  {
    hide CodeAt, SizeAll, FnAsm, InSubset, FrameBytes, Savers, Ready;
    var fr := IrSemantics.Top(fs);
    forall u | u in fr.env && u != CallOf(w, fr).dst && LiveAt(FnOf(w, fr), Point(fr.block, fr.pos + 1), u)
      ensures HomeHolds(v', LocOf(AllocOf(w, fr).loc, u), fr.env[u])
    {
      LiveInRange(w, fr, Point(fr.block, fr.pos + 1), u);
      SlotInFrame(w, fr, u);
      HoldsDep(v, v', LocOf(AllocOf(w, fr).loc, u), fr.env[u], FrameRsp(w, fs));
    }
  }

  lemma PoolRestored(regs: Regs, regs': Regs, s: Stack, s': Stack, base: int, rs: seq<Phys>)
    requires forall p: Phys :: p in rs || regs'[PhysId(p)] == regs[PhysId(p)]
    requires forall a :: base - 8 * |rs| <= a < base ==> Cell(s', a) == Cell(s, a)
    ensures forall p: Phys :: Restored(regs', s', base, rs)[PhysId(p)] == Restored(regs, s, base, rs)[PhysId(p)]
  {
    RestoredCells(regs', s, s', base, rs);
    forall p: Phys
      ensures Restored(regs', s', base, rs)[PhysId(p)] == Restored(regs, s, base, rs)[PhysId(p)]
    {
      RestoredSame(regs, regs', s, base, rs, PhysId(p));
    }
  }

  /** Unwinding the top frame gives the same machine when its saved cells, and the
      registers it did not save, are the same. */
  lemma UnwoundDep(w: World, fs: seq<Frame>, v: M, v': M)
    requires fs != [] && InWorld(w, IrSemantics.Top(fs))
    requires var a, top := AllocOf(w, IrSemantics.Top(fs)), FrameTop(w, fs);
             && (forall p: Phys :: p in Savers(a) || v'.regs[PhysId(p)] == v.regs[PhysId(p)])
             && (forall c :: FrameRsp(w, fs) <= c < top - 16 - FrameBytes(a) ==> Cell(v'.stack, c) == Cell(v.stack, c))
             && Cell(v'.stack, top - 16) == Cell(v.stack, top - 16)
    ensures SamePool(Unwound(w, fs, v).regs, Unwound(w, fs, v').regs)
  {
    hide FrameBytes, Savers, Restored, FrameTop, CodeAt, InWorld;
    var a, top := AllocOf(w, IrSemantics.Top(fs)), FrameTop(w, fs);
    PoolRestored(v.regs, v'.regs, v.stack, v'.stack, top - 16 - FrameBytes(a), Savers(a));
  }

  lemma {:induction false} SuspendedDep(w: World, fs: seq<Frame>, v: M, v': M)
    requires Ready(w) && Suspended(w, fs, v) && SamePool(v.regs, v'.regs)
    requires SameAbove(v.stack, v'.stack, Floor(w, fs))
    ensures Suspended(w, fs, v')
    decreases |fs|
  {
    hide CodeAt, SizeAll, FrameBytes, Savers, AwaitHomes, Ready, Unwound, TailBytes;
    if fs != [] {
      var fr, below := IrSemantics.Top(fs), IrSemantics.Rest(fs);
      AwaitDep(w, fs, v, v');
      UnwoundDep(w, fs, v, v');
      UnwoundStack(w, fs, v);
      UnwoundStack(w, fs, v');
      FrameOrder(w, fs);
      SuspendedDep(w, below, Unwound(w, fs, v), Unwound(w, fs, v'));
    }
  }

  lemma UnwoundStack(w: World, fs: seq<Frame>, v: M)
    requires fs != [] && InWorld(w, IrSemantics.Top(fs))
    ensures Unwound(w, fs, v).stack == v.stack
  {
  }

  /** A frame lies wholly below the one that called it. */
  lemma FrameOrder(w: World, fs: seq<Frame>)
    requires fs != []
    ensures FrameRsp(w, fs) <= FrameTop(w, fs) - 16 && FrameTop(w, fs) <= Floor(w, IrSemantics.Rest(fs))
  {
    hide TailBytes;
    if IrSemantics.Rest(fs) != [] { TailEven(w, IrSemantics.Top(IrSemantics.Rest(fs))); }
  }

  // ---------- storing a result ----------

  lemma HomeIsOk(w: World, fs: seq<Frame>, m: M, u: VReg)
    requires Ready(w) && FramesOk(w, fs, m) && u < FnOf(w, IrSemantics.Top(fs)).vregs
    ensures HomeOk(m, LocOf(AllocOf(w, IrSemantics.Top(fs)).loc, u))
  {
    hide CodeAt, SizeAll, FrameBytes, Savers, Suspended, FnOk, Separate;
    var fr := IrSemantics.Top(fs);
    SlotInFrame(w, fr, u);
    FrameAligned(w, fs);
    var l := LocOf(AllocOf(w, fr).loc, u);
    if l.Slot? {
      assert (FrameTop(w, fs) - 16 - 8 * (l.k + 1)) % 8 == 0;
    }
  }

  ghost predicate SetsHomeOf(w: World, fs: seq<Frame>, m: M, m': M, d: VReg, x: Word)
    requires fs != [] && InWorld(w, IrSemantics.Top(fs))
  {
    d < FnOf(w, IrSemantics.Top(fs)).vregs && Agree(m', SetHome(m, LocOf(AllocOf(w, IrSemantics.Top(fs)).loc, d), x))
  }

  /** Registers a home can be in are saved by the function. */
  lemma HomeRegSaved(w: World, fr: Frame, d: VReg)
    requires Ready(w) && InWorld(w, fr) && d < FnOf(w, fr).vregs && LocOf(AllocOf(w, fr).loc, d).Reg?
    ensures LocOf(AllocOf(w, fr).loc, d).phys in Savers(AllocOf(w, fr))
  {
    hide CodeAt, SizeAll, Savers, FnOk, Ready;
    SlotInFrame(w, fr, d);
    SaversHas(AllocOf(w, fr), LocOf(AllocOf(w, fr).loc, d).phys);
  }

  lemma PhysFacts(p: Phys)
    ensures !Scratch(PhysId(p)) && PhysId(p) != RSP && PhysId(p) != RBP
  {
    match p case Rbx => case R12 => case R13 => case R14 => case R15 =>
  }

  /** A store to a home of the running function leaves the frames in order. */
  lemma FramesAfterSet(w: World, fs: seq<Frame>, m: M, m': M, d: VReg, x: Word)
    requires Ready(w) && FramesOk(w, fs, m) && SetsHomeOf(w, fs, m, m', d, x)
    ensures FramesOk(w, fs, m')
  {
    hide CodeAt, SizeAll, FrameBytes, Savers, Suspended, Unwound, Ready, InWorld, FrameTop, FrameRsp;
    var fr := IrSemantics.Top(fs);
    var a, l := AllocOf(w, fr), LocOf(AllocOf(w, fr).loc, d);
    SlotInFrame(w, fr, d);
    HomeIsOk(w, fs, m, d);
    FrameSpan(w, fs);
    forall p: Phys
      ensures p in Savers(a) || m'.regs[PhysId(p)] == m.regs[PhysId(p)]
    {
      PhysFacts(p);
      if l.Reg? { HomeRegSaved(w, fr, d); if p != l.phys { DistinctIds(p, l.phys); } }
    }
    if l.Reg? { PhysFacts(l.phys); }
    UnwoundDep(w, fs, m, m');
    UnwoundStack(w, fs, m);
    UnwoundStack(w, fs, m');
    FrameOrder(w, fs);
    SuspendedDep(w, IrSemantics.Rest(fs), Unwound(w, fs, m), Unwound(w, fs, m'));
  }

  lemma FrameSpan(w: World, fs: seq<Frame>)
    requires fs != [] && InWorld(w, IrSemantics.Top(fs))
    ensures FrameRsp(w, fs) == FrameTop(w, fs) - 16 - FrameBytes(AllocOf(w, IrSemantics.Top(fs)))
                               - 8 * |Savers(AllocOf(w, IrSemantics.Top(fs)))|
  {
  }

  // ---------- live homes ----------

  lemma HoldsAfterSet(m: M, m': M, lu: Loc, ld: Loc, x: Word, y: Word)
    requires HomeHolds(m, lu, y) && lu != ld && HomeOk(m, ld) && Agree(m', SetHome(m, ld, x))
    ensures HomeHolds(m', lu, y)
  {
    if lu.Reg? { PhysFacts(lu.phys); }
    if ld.Reg? { PhysFacts(ld.phys); }
    if lu.Reg? && ld.Reg? { DistinctIds(lu.phys, ld.phys); }
  }

  lemma SetHolds(m: M, m': M, ld: Loc, x: Word)
    requires HomeOk(m, ld) && Agree(m', SetHome(m, ld, x))
    ensures HomeHolds(m', ld, x)
  {
    if ld.Reg? { PhysFacts(ld.phys); }
  }

  lemma HoldsAgree(m: M, m': M, l: Loc, x: Word, h: Heap)
    requires HomeHolds(m, l, x) && Agree(m', m.(heap := h))
    ensures HomeHolds(m', l, x)
  {
    if l.Reg? { PhysFacts(l.phys); }
  }

  /** The frame after an instruction that defined `d`. */
  function Advanced(fr: Frame, d: VReg, x: Word): Frame { fr.(pos := fr.pos + 1, env := fr.env[d := x]) }

  predicate Executing(w: World, fr: Frame, i: Instr) { InWorld(w, fr) && IrSemantics.InstrOf(w.p, fr) == Some(i) }

  /** A vreg other than the one defined, live after the instruction, was live
      before it and keeps a home of its own. */
  lemma LiveOther(w: World, fr: Frame, i: Instr, d: VReg, u: VReg)
    requires Ready(w) && Executing(w, fr, i) && Def(i) == Some(d) && u != d
    requires LiveAt(FnOf(w, fr), Point(fr.block, fr.pos + 1), u)
    ensures LiveAt(FnOf(w, fr), PointOf(fr), u)
    ensures LocOf(AllocOf(w, fr).loc, u) != LocOf(AllocOf(w, fr).loc, d)
  {
    hide CodeAt, SizeAll, FnAsm, InSubset;
    var f, p := FnOf(w, fr), PointOf(fr);
    assert FnOk(w, fr.fidx);
    assert d in DefsAt(f, p);
    LiveByStep(f, p, Point(fr.block, fr.pos + 1), u);
    Interference(f, AllocOf(w, fr), p, u, d);
  }

  lemma LiveAfterSet(w: World, fs: seq<Frame>, m: M, m': M, i: Instr, d: VReg, x: Word)
    requires Ready(w) && FramesOk(w, fs, m) && Executing(w, IrSemantics.Top(fs), i) && Def(i) == Some(d)
    requires LiveHomes(w, IrSemantics.Top(fs), m) && SetsHomeOf(w, fs, m, m', d, x)
    requires InWorld(w, Advanced(IrSemantics.Top(fs), d, x))
    ensures LiveHomes(w, Advanced(IrSemantics.Top(fs), d, x), m')
  {
    hide CodeAt, SizeAll, Suspended, Separate, Unwound, FrameTop, FrameRsp, Cells, Ready, LiveAt;
    var fr := IrSemantics.Top(fs);
    var loc, fr' := AllocOf(w, fr).loc, Advanced(fr, d, x);
    HomeIsOk(w, fs, m, d);
    forall u | u in fr'.env && LiveAt(FnOf(w, fr'), PointOf(fr'), u)
      ensures HomeHolds(m', LocOf(loc, u), fr'.env[u])
    {
      if u == d {
        SetHolds(m, m', LocOf(loc, d), x);
      } else {
        LiveOther(w, fr, i, d, u);
        HoldsAfterSet(m, m', LocOf(loc, u), LocOf(loc, d), x, fr.env[u]);
      }
    }
  }

  lemma DefinedInRange(w: World, fr: Frame, i: Instr, d: VReg)
    requires Ready(w) && Executing(w, fr, i) && Def(i) == Some(d)
    ensures d < FnOf(w, fr).vregs
  {
    hide CodeAt, SizeAll, FnAsm, InSubset, AllocationOf;
    assert FnOk(w, fr.fidx);
    assert IsPoint(FnOf(w, fr), PointOf(fr)) && d in DefsAt(FnOf(w, fr), PointOf(fr));
  }

  lemma UsedInRange(w: World, fr: Frame, u: VReg)
    requires Ready(w) && InWorld(w, fr) && u in UsesAt(FnOf(w, fr), PointOf(fr))
    ensures u < FnOf(w, fr).vregs
  {
    hide CodeAt, SizeAll, FnAsm, InSubset, AllocationOf;
    assert FnOk(w, fr.fidx);
    assert IsPoint(FnOf(w, fr), PointOf(fr));
  }

  /** Operands are in their homes. */
  lemma OperandHome(w: World, fr: Frame, m: M, u: VReg)
    requires InWorld(w, fr) && LiveHomes(w, fr, m)
    requires u in UsesAt(FnOf(w, fr), PointOf(fr)) && u in fr.env
    ensures HomeHolds(m, LocOf(AllocOf(w, fr).loc, u), fr.env[u])
  {
    LiveByUse(FnOf(w, fr), PointOf(fr), u);
  }

  /** Geometry only depends on which function the top frame runs. */
  lemma FramesRetop(w: World, fs: seq<Frame>, m: M, fr': Frame)
    requires FramesOk(w, fs, m) && InWorld(w, fr') && fr'.fidx == IrSemantics.Top(fs).fidx
    ensures FramesOk(w, IrSemantics.Rest(fs) + [fr'], m)
  {
    hide CodeAt, SizeAll, FrameBytes, Savers, Suspended, Separate, TailBytes, Restored;
    var fs' := IrSemantics.Rest(fs) + [fr'];
    assert IrSemantics.Rest(fs') == IrSemantics.Rest(fs) && IrSemantics.Top(fs') == fr';
    assert FrameTop(w, fs') == FrameTop(w, fs);
    assert FrameSize(w, fr') == FrameSize(w, IrSemantics.Top(fs));
    assert Unwound(w, fs', m) == Unwound(w, fs, m);
  }

  /** A write to the heap leaves the frames in order. */
  lemma FramesAfterHeap(w: World, fs: seq<Frame>, m: M, m': M, h: Heap)
    requires Ready(w) && FramesOk(w, fs, m) && Agree(m', m.(heap := h)) && h.Keys == m.heap.Keys
    ensures FramesOk(w, fs, m')
  {
    hide CodeAt, SizeAll, FrameBytes, Savers, Suspended, Unwound, Ready, InWorld, FrameTop, FrameRsp;
    forall p: Phys
      ensures m'.regs[PhysId(p)] == m.regs[PhysId(p)]
    {
      PhysFacts(p);
    }
    UnwoundDep(w, fs, m, m');
    UnwoundStack(w, fs, m);
    UnwoundStack(w, fs, m');
    SuspendedDep(w, IrSemantics.Rest(fs), Unwound(w, fs, m), Unwound(w, fs, m'));
  }

  lemma LiveAfterHeap(w: World, fr: Frame, m: M, m': M, i: Instr, h: Heap)
    requires Ready(w) && Executing(w, fr, i) && Def(i) == None
    requires LiveHomes(w, fr, m) && Agree(m', m.(heap := h)) && InWorld(w, fr.(pos := fr.pos + 1))
    ensures LiveHomes(w, fr.(pos := fr.pos + 1), m')
  {
    hide CodeAt, SizeAll, Ready, LiveAt;
    var fr' := fr.(pos := fr.pos + 1);
    forall u | u in fr'.env && LiveAt(FnOf(w, fr'), PointOf(fr'), u)
      ensures HomeHolds(m', LocOf(AllocOf(w, fr).loc, u), fr'.env[u])
    {
      LiveByStep(FnOf(w, fr), PointOf(fr), PointOf(fr'), u);
      HoldsAgree(m, m', LocOf(AllocOf(w, fr).loc, u), fr.env[u], h);
    }
  }
}
