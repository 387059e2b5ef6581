/** Compiled functions keep the calling convention, whoever calls them. */
module Convention {
  import opened Ir
  import opened Words
  import IrSemantics
  import opened Locations
  import opened Machine
  import opened Emission
  import opened Execution
  import opened Frames
  import opened Relation
  import opened Instructions
  import opened Preservation
  import opened ControlFlow
  import opened Calls
  import opened Entry
  import opened Correctness
  import opened CallShift
  import opened Encoding
  import opened Linker
  import opened Compiled

  /** Fetching and executing the image's bytes leads from `m` to `m'`. */
  ghost predicate Reaches(image: Bytes, base: int, m: M, m': M) {
    exists n: nat :: ByteSteps(image, base, m, n) == Go(m')
  }

  lemma StarBytes(image: Bytes, base: int, m: M, m': M)
    requires Star(DecodeMap(image, base), m, m')
    ensures Reaches(image, base, m, m')
  {
    hide DecodeMap, Steps, ByteSteps;
    var n: nat :| Steps(DecodeMap(image, base), m, n) == Go(m');
    BytesRun(image, base, m, n);
  }

  lemma {:induction false} ByteStepsAdd(image: Bytes, base: int, a: M, b: M, n: nat, k: nat)
    requires ByteSteps(image, base, a, n) == Go(b)
    ensures ByteSteps(image, base, a, n + k) == ByteSteps(image, base, b, k)
    decreases n
  {
    hide ByteStep;
    if n > 0 { ByteStepsAdd(image, base, ByteStep(image, base, a).m, b, n - 1, k); }
  }

  lemma ReachesOn(image: Bytes, base: int, a: M, b: M, c: M)
    requires Reaches(image, base, a, b) && Reaches(image, base, b, c)
    ensures Reaches(image, base, a, c)
  {
    hide ByteSteps;
    var n: nat :| ByteSteps(image, base, a, n) == Go(b);
    var k: nat :| ByteSteps(image, base, b, k) == Go(c);
    ByteStepsAdd(image, base, a, b, n, k);
  }

  /** The world of a callee: `m1` is the machine before the call instruction, which
      pushes `back`. */
  function Callee(fs: seq<Func>, allocs: seq<Allocation>, addr: seq<Word>, base: int, image: Bytes, lo: int, m1: M,
                  back: Word): World
  {
    WorldOf(fs, allocs, addr, base, image, lo, m1.regs[RSP], back, m1.regs, m1.stack)
  }

  /** The intermediate program, called at function `k`, returns `x` and memory `h` in
      `n` safe steps, and the stack has room for it. */
  ghost predicate Returns(w: World, k: nat, args: seq<Word>, h0: Heap, n: nat, x: Word, h: Heap) {
    && Has(w, k)
    && var s := IrSemantics.Running([NewFrame(w, k, args)], h0);
    && Harmless(w.p.funcs[k], args) && RoomyRun(w, s, n) && SafeRun(w, s, n)
    && RunIr(w.p, s, n) == IrSemantics.Returned(x, h)
  }

  /** The call has been made. */
  lemma CallEnters(w: World, k: nat, args: seq<Word>, m1: M, m2: M)
    requires Has(w, k) && w.hi == m1.regs[RSP] && w.regs0 == m1.regs && w.stack0 == m1.stack
    requires Called(m1, m2, w.p.addr[k], w.halt) && ArgsAt(m1, m1.regs[RSP], args)
    requires m1.regs[RSP] >= 8 && m1.regs[RSP] - 8 in m1.stack && Cells(m1.stack, w.lo, w.hi) && Separate(m1)
    ensures Entering(w, [], k, args, m2)
  {
    hide ArgsAt;
    ArgsCalled(m1, m2, w.p.addr[k], w.halt, args);
    assert m2.stack.Keys == m1.stack.Keys;
    CellsSame(m1.stack, m2.stack, w.lo, w.hi);
    forall p: Phys
      ensures m2.regs[PhysId(p)] == m1.regs[PhysId(p)]
    {
      PhysFacts(p);
    }
  }

  /** A compiled function called from any code whatever, by a call that places its
      arguments and pushes a return address, comes back there with its result, rsp,
      the callee-saved registers and the caller's whole stack intact. */
  lemma ConventionKept(fs: seq<Func>, allocs: seq<Allocation>, addr: seq<Word>, base: int, image: Bytes, lo: int,
                       m1: M, m2: M, back: Word, k: nat, args: seq<Word>, n: nat, x: Word, h: Heap) returns (v: M)
    requires k < |fs| == |allocs| == |addr|
    requires 0 <= lo && lo + 8 <= m1.regs[RSP] && m1.regs[RSP] % 8 == 0 && Cells(m1.stack, lo, m1.regs[RSP]) && Separate(m1)
    requires Called(m1, m2, addr[k], back) && ArgsAt(m1, m1.regs[RSP], args)
    requires Returns(Callee(fs, allocs, addr, base, image, lo, m1, back), k, args, m1.heap, n, x, h)
    requires ImageOf(fs, allocs, addr, base, image)
    ensures Reaches(image, base, m2, v) && Kept(m1, v, back) && v.regs[RAX] == x && v.heap == h
  {
    hide ImageOf, Entering, RoomyRun, SafeRun, RunIr, Harmless, ArgsAt, Reaches, DecodeMap, Observed, Finished, Kept,
         Called, Cells, Separate, NewFrame;
    var w := Callee(fs, allocs, addr, base, image, lo, m1, back);
    RoomForReturn(m1, lo);
    CallEnters(w, k, args, m1, m2);
    CalledHeap(m1, m2, addr[k], back);
    CompiledCorrectly(fs, allocs, addr, base, image, w, k, args, m2, n);
    v := ReturnObserved(w, image, base, m2, x, h);
    FinishedKeeps(w, m1, v, x, h);
  }

  lemma RoomForReturn(m1: M, lo: int)
    requires 0 <= lo && lo + 8 <= m1.regs[RSP] && m1.regs[RSP] % 8 == 0 && Cells(m1.stack, lo, m1.regs[RSP])
    ensures m1.regs[RSP] >= 8 && m1.regs[RSP] - 8 in m1.stack
  {
  }

  lemma CalledHeap(m1: M, m2: M, target: int, back: int)
    requires Called(m1, m2, target, back)
    ensures m2.heap == m1.heap
  {
  }

  lemma ReturnObserved(w: World, image: Bytes, base: int, m: M, x: Word, h: Heap) returns (v: M)
    requires Observed(w, image, base, m, IrSemantics.Returned(x, h))
    ensures Reaches(image, base, m, v) && Finished(w, x, h, v)
  {
    hide ByteSteps, Finished;
    var n: nat, v' :| ByteSteps(image, base, m, n) == Go(v') && Finished(w, x, h, v');
    v := v';
  }

  lemma FinishedKeeps(w: World, m1: M, v: M, x: Word, h: Heap)
    requires Finished(w, x, h, v) && w.hi == m1.regs[RSP] && w.regs0 == m1.regs && w.stack0 == m1.stack
    ensures Kept(m1, v, w.halt) && v.regs[RAX] == x && v.heap == h
  {
  }
}
