/** A function whose last parameter takes another's home: the static
    `first(a, b) { t = 5; return a; }` returns `b`. */
module LastParam {
  import opened Ir
  import opened Words
  import opened Liveness
  import opened Intervals
  import LS = LinearScan
  import IrSemantics
  import opened Locations
  import opened RegAlloc
  import opened Machine
  import opened Emission
  import opened Execution
  import opened Relation
  import opened Preservation
  import opened Simulation
  import opened ControlFlow
  import opened Entry
  import opened Correctness
  import opened Encoding
  import opened Layout
  import opened Linker
  import opened Compiled

  /** Parameters are vregs 1 and 2; vreg 2 is written again, so it is not live on entry. */
  const FIRST := Func(false, 2, 3, [Block([Mov(0, 1), Const(2, 5)], Terminator.Ret(Some(0)))])

  // ---------- its allocation ----------

  lemma FirstPoints(p: Point)
    requires IsPoint(FIRST, p)
    ensures p in [Point(0, 0), Point(0, 1), Point(0, 2)]
  {
  }

  lemma FirstWellFormed()
    ensures WellFormed(FIRST)
  {
    forall p, v | IsPoint(FIRST, p) && (v in UsesAt(FIRST, p) || v in DefsAt(FIRST, p))
      ensures v < 3
    {
      FirstPoints(p);
    }
  }

  /** Nothing uses the second parameter. */
  lemma SecondIsDead(q: Point)
    ensures !LiveAt(FIRST, q, 2)
  {
    forall p | IsPath(FIRST, p)
      ensures !UsePath(FIRST, 2, p)
    {
      FirstPoints(p[|p| - 1]);
    }
  }

  lemma FirstTouches(v: VReg, r: Option<Span>)
    requires v < 3
    ensures CodeSpan(FIRST, 0, 3, v, r) == Touch(Touch(Touch(r, v <= 1, 0), v == 2, 1), v == 0, 2)
  {
    hide Touch;
    assert Intervals.Entry(FIRST, 0) == 0 && CodeSpan(FIRST, 0, 0, v, r) == r;
    assert CodeSpan(FIRST, 0, 1, v, r) == Touch(r, v <= 1, 0);
    assert CodeSpan(FIRST, 0, 2, v, r) == Touch(CodeSpan(FIRST, 0, 1, v, r), v == 2, 1);
  }

  lemma FirstSpan(v: VReg)
    requires v < 3
    ensures SpanOf(FIRST, v) == Span(if v == 2 then 1 else 0, if v == 0 then 2 else if v == 1 then 0 else 1)
  {
    hide CodeSpan, LiveAt, IsPath;
    SecondIsDead(Point(0, 0));
    var ins, outs := LiveIns(FIRST), LiveOuts(FIRST);
    assert !LiveOutOf(FIRST, 0, v) && v !in outs[0];
    assert Intervals.Entry(FIRST, 0) == 0;
    assert SpanUpTo(FIRST, ins, outs, 0, v) == Touch(None, v < 2, 0);
    FirstTouches(v, EdgeSpan(FIRST, 0, v in ins[0], false, Touch(None, v < 2, 0)));
  }

  const A := LS.Range(1, 0, 0)
  const B := LS.Range(0, 0, 2)
  const C := LS.Range(2, 1, 1)

  const S1 := LS.State([UNPLACED, Reg(Rbx), UNPLACED], 0, [1, 2, 3, 4], [LS.Active(0, 0, 1)])
  const S2 := LS.State([Reg(R12), Reg(Rbx), UNPLACED], 0, [2, 3, 4], [LS.Active(0, 0, 1), LS.Active(2, 1, 0)])
  const S3 := LS.State([Reg(R12), Reg(Rbx), Reg(Rbx)], 0, [2, 3, 4], [LS.Active(2, 1, 0), LS.Active(1, 0, 2)])

  lemma FirstOrder()
    ensures LS.Ordered(SpansOf(FIRST), 3) == [A, B, C]
  {
    hide SpanOf;
    FirstSpan(0);
    FirstSpan(1);
    FirstSpan(2);
    var m := SpansOf(FIRST);
    assert m[0] == Span(0, 2) && m[1] == Span(0, 0) && m[2] == Span(1, 1);
    var a, b, c := A, B, C;
    assert LS.Ordered(m, 1) == [b] by { assert LS.Ordered(m, 0) == []; }
    assert LS.Ordered(m, 2) == [a, b];
    assert [a, b][1..] == [b] && [b][1..] == [];
    assert LS.InsertRange([], c) == [c] && LS.InsertRange([b], c) == [b, c] && LS.InsertRange([a, b], c) == [a, b, c];
  }

  lemma StepA()
    ensures LS.Sane(LS.Start(3)) && LS.StepOf(LS.Start(3), A) == S1
  {
  }

  lemma StepB()
    ensures LS.Sane(S1) && LS.StepOf(S1, B) == S2
  {
    assert LS.ExpireFrom(S1, 0, 0) == LS.ExpireFrom(S1, 0, 1) == S1;
  }

  /** The first parameter's interval has ended: rbx is free again. */
  lemma StepC()
    ensures LS.Sane(S2) && LS.StepOf(S2, C) == S3
  {
    var t := LS.State(S2.loc, 0, [0, 2, 3, 4], [LS.Active(2, 1, 0)]);
    assert LS.ExpireAt(S2, 0) == t;
    assert LS.ExpireFrom(S2, 1, 0) == LS.ExpireFrom(t, 1, 0);
    assert LS.ExpireFrom(t, 1, 0) == LS.ExpireFrom(t, 1, 1) == t;
  }

  /** Both parameters live in rbx. */
  lemma FirstHomes()
    ensures Homes(FIRST) == Allocation([Reg(R12), Reg(Rbx), Reg(Rbx)], 0)
  {
    hide SpanOf, SpansOf, LS.Ordered, LS.StepOf, LS.Sane, LS.Start;
    FirstOrder();
    StepA();
    StepB();
    StepC();
    var rs := [A, B, C];
    assert LS.ScanFrom(3, rs, 0) == LS.Start(3);
    assert LS.ScanFrom(3, rs, 1) == S1;
    assert LS.ScanFrom(3, rs, 2) == S2;
    assert LS.ScanFrom(3, rs, 3) == S3;
  }

  // ---------- its run ----------

  /** A frame of function `k` at position `pos` of its only block. */
  function At(k: nat, pos: nat, env: IrSemantics.Env): Frame { IrSemantics.Frame(k, 0, pos, env) }

  lemma MovStep(p: IrSemantics.Prog, k: nat, e: IrSemantics.Env, h: Heap)
    requires k < |p.funcs| && p.funcs[k] == FIRST && 1 in e
    ensures IrSemantics.Step(p, IrSemantics.Running([At(k, 0, e)], h))
         == IrSemantics.Running([At(k, 1, e[0 := e[1]])], h)
  {
  }

  lemma ConstStep(p: IrSemantics.Prog, k: nat, e: IrSemantics.Env, h: Heap)
    requires k < |p.funcs| && p.funcs[k] == FIRST
    ensures IrSemantics.Step(p, IrSemantics.Running([At(k, 1, e)], h)) == IrSemantics.Running([At(k, 2, e[2 := 5])], h)
  {
  }

  lemma RetStep(p: IrSemantics.Prog, k: nat, e: IrSemantics.Env, h: Heap)
    requires k < |p.funcs| && p.funcs[k] == FIRST && 0 in e
    ensures IrSemantics.Step(p, IrSemantics.Running([At(k, 2, e)], h)) == IrSemantics.Returned(e[0], h)
  {
  }

  /** The program returns its first argument. */
  lemma FirstMeans(w: World, k: nat, x: Word, y: Word, h: Heap)
    requires Has(w, k) && w.p.funcs[k] == FIRST
    ensures RunIr(w.p, IrSemantics.Running([NewFrame(w, k, [x, y])], h), 3) == IrSemantics.Returned(x, h)
  {
    hide IrSemantics.Step;
    var e := NewFrame(w, k, [x, y]).env;
    assert 1 in e && e[1] == x;
    MovStep(w.p, k, e, h);
    ConstStep(w.p, k, e[0 := x], h);
    RetStep(w.p, k, e[0 := x][2 := 5], h);
    assert RunIr(w.p, IrSemantics.Running([At(k, 2, e[0 := x][2 := 5])], h), 1) == IrSemantics.Returned(x, h);
    assert RunIr(w.p, IrSemantics.Running([At(k, 1, e[0 := x])], h), 2) == IrSemantics.Returned(x, h);
  }

  /** After the prologue the machine represents a frame in which the first
      parameter has the second one's value. */
  lemma AfterPrologue(w: World, k: nat, x: Word, y: Word, m: M) returns (m': M)
    requires Ready(w) && Has(w, k) && w.p.funcs[k] == FIRST && Entering(w, [], k, [x, y], m)
    requires w.lo <= FrameRsp(w, Entered(w, [], k, [x, y]))
    ensures Star(w.code, m, m') && Related(w, [At(k, 0, map[1 := y])], m.heap, m')
  {
    hide CodeAt, SizeAll, Star, Ready, FrameRsp, FramesOk, EntryTop, CodeAddr, Entering, HomeHolds, Homes, LiveAt;
    LocIsHomes(w, k);
    FirstHomes();
    m' := PrologueStores(w, [], k, [x, y], m.heap, m);
    var fr, fr' := NewFrame(w, k, [x, y]), At(k, 0, map[1 := y]);
    assert Bound(FIRST, 2, 1) && LastAt(w.allocs[k].loc, 2, 1) == 2;
    FramesRetop(w, Entered(w, [], k, [x, y]), m', fr');
    assert IrSemantics.Rest(Entered(w, [], k, [x, y])) + [fr'] == [fr'];
    assert CodeAddr(w, fr') == CodeAddr(w, fr) by { SameAddr(w, fr, fr'); }
  }

  lemma SameAddr(w: World, fr: Frame, fr': Frame)
    requires InWorld(w, fr) && fr' == fr.(env := fr'.env)
    ensures InWorld(w, fr') && CodeAddr(w, fr') == CodeAddr(w, fr)
  {
  }

  /** The code returns its second argument. */
  lemma SecondReturned(w: World, k: nat, x: Word, y: Word, m: M) returns (m': M)
    requires Ready(w) && Has(w, k) && w.p.funcs[k] == FIRST && Entering(w, [], k, [x, y], m)
    requires w.lo <= FrameRsp(w, Entered(w, [], k, [x, y]))
    ensures Star(w.code, m, m') && Finished(w, y, m.heap, m')
  {
    hide CodeAt, SizeAll, Star, Plus, Ready, FrameRsp, Entering, Finished, Related;
    var h := m.heap;
    var e := map[1 := y];
    var m0 := AfterPrologue(w, k, x, y, m);
    var m1 := StepSet(w, [At(k, 0, e)], h, m0, Mov(0, 1), 0, y);
    assert SetFrames([At(k, 0, e)], 0, y) == [At(k, 1, e[0 := y])];
    var m2 := StepSet(w, [At(k, 1, e[0 := y])], h, m1, Const(2, 5), 2, 5);
    assert SetFrames([At(k, 1, e[0 := y])], 2, 5) == [At(k, 2, e[0 := y][2 := 5])];
    m' := StepLastRet(w, [At(k, 2, e[0 := y][2 := 5])], h, m2, Some(0), y);
    PlusIsStar(w.code, m2, m');
    StarTrans(w.code, m, m0, m1);
    StarTrans(w.code, m, m1, m2);
    StarTrans(w.code, m, m2, m');
  }

  /** It meets the compiler's premises. */
  lemma FirstAccepted()
    ensures Accepted([FIRST])
  {
    hide WellFormed, Supported, ShortArgs, Names, LIMIT;
    FirstWellFormed();
    forall b, i | 0 <= b < |FIRST.blocks| && 0 <= i < |FIRST.blocks[b].instrs|
      ensures var ins := FIRST.blocks[b].instrs[i];
              Supported(ins) && ShortArgs(ins) && Names(ins, 1)
    {
      FirstSupported(FIRST.blocks[b].instrs[i]);
    }
    assert FIRST.vregs <= LIMIT by { SmallEnough(); }
    assert Compact(FIRST, 1);
  }

  lemma FirstSupported(i: Instr)
    requires i == Mov(0, 1) || i == Const(2, 5)
    ensures Supported(i) && ShortArgs(i) && Names(i, 1)
  {
  }

  lemma SmallEnough()
    ensures 3 <= LIMIT
  {
  }

  /** The first parameter is read by the first instruction. */
  lemma FirstIsLive()
    ensures LiveAt(FIRST, Point(0, 0), 1)
  {
    assert UsePath(FIRST, 1, [Point(0, 0)]);
  }

  /** So a call is harmless exactly when its two arguments are the same. */
  lemma FirstHarmless(x: Word, y: Word)
    ensures Harmless(FIRST, [x, y]) <==> x == y
  {
    hide Homes, LiveAt;
    FirstHomes();
    FirstIsLive();
    assert Overwritten(FIRST, 1);
  }

  /** Compiled alone and called with `x` and `y`, the function means `x`; the bytes
      return `y` to their caller. */
  lemma WrongResult(allocs: seq<Allocation>, addr: seq<Word>, base: int, image: Bytes, w: World,
                    x: Word, y: Word, m: M) returns (n: nat, m': M)
    requires ImageOf([FIRST], allocs, addr, base, image)
    requires w == WorldOf([FIRST], allocs, addr, base, image, w.lo, w.hi, w.halt, w.regs0, w.stack0)
    requires 0 <= w.lo <= w.hi < B64 && w.hi % 8 == 0
    requires Entering(w, [], 0, [x, y], m) && w.lo <= FrameRsp(w, Entered(w, [], 0, [x, y]))
    ensures RunIr(w.p, IrSemantics.Running([NewFrame(w, 0, [x, y])], m.heap), 3) == IrSemantics.Returned(x, m.heap)
    ensures ByteSteps(image, base, m, n) == Go(m') && Finished(w, y, m.heap, m')
  {
    hide ImageOf, Ready, Entering, RunIr, Finished, FrameRsp, Steps, ByteSteps, DecodeMap;
    Shapes([FIRST], allocs, addr, base, image);
    ImageReady([FIRST], allocs, addr, base, image, w.lo, w.hi, w.halt, w.regs0, w.stack0);
    FirstMeans(w, 0, x, y, m.heap);
    m' := SecondReturned(w, 0, x, y, m);
    var k: nat :| Steps(w.code, m, k) == Go(m');
    BytesRun(image, base, m, k);
    n := k;
  }
}
