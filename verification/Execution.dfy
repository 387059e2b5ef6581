/** Running emitted code: how machine runs compose, and what the emitter's
    building blocks do to a machine state. */
module Execution {
  import opened Words
  import opened Locations
  import opened Machine
  import opened Emission

  // ---------- runs ----------

  /** `b` is reached from `a` in some number of steps. */
  ghost predicate Star(code: Code, a: M, b: M) { exists n: nat :: Steps(code, a, n) == Go(b) }

  /** ... in at least one step. */
  ghost predicate Plus(code: Code, a: M, b: M) { exists n: nat :: n > 0 && Steps(code, a, n) == Go(b) }

  lemma StarRefl(code: Code, a: M)
    ensures Star(code, a, a)
  {
    assert Steps(code, a, 0) == Go(a);
  }

  lemma StarTrans(code: Code, a: M, b: M, c: M)
    requires Star(code, a, b) && Star(code, b, c)
    ensures Star(code, a, c)
  {
    var n: nat :| Steps(code, a, n) == Go(b);
    var k: nat :| Steps(code, b, k) == Go(c);
    StepsAdd(code, a, b, n, k);
  }

  lemma StarPlus(code: Code, a: M, b: M, c: M)
    requires Star(code, a, b) && Plus(code, b, c)
    ensures Plus(code, a, c)
  {
    var n: nat :| Steps(code, a, n) == Go(b);
    var k: nat :| k > 0 && Steps(code, b, k) == Go(c);
    StepsAdd(code, a, b, n, k);
  }

  lemma PlusStar(code: Code, a: M, b: M, c: M)
    requires Plus(code, a, b) && Star(code, b, c)
    ensures Plus(code, a, c)
  {
    var n: nat :| n > 0 && Steps(code, a, n) == Go(b);
    var k: nat :| Steps(code, b, k) == Go(c);
    StepsAdd(code, a, b, n, k);
  }

  /** The state in which the instruction at `m.rip`, `size` bytes long, executes. */
  function Past(m: M, size: nat): M { m.(rip := m.rip + size) }

  lemma OneStep(code: Code, ctx: Ctx, m: M, a: Asm, m': M)
    requires CodeAt(code, m.rip, [a], ctx)
    requires Exec(Resolve(a, m.rip, ctx), Past(m, Size(a))) == Go(m')
    ensures Plus(code, m, m') && Star(code, m, m')
  {
    ResolveSize(a, m.rip, ctx);
    assert Step(code, m) == Go(m');
    assert Steps(code, m', 0) == Go(m');
    assert Steps(code, m, 1) == Go(m');
  }

  lemma ResolveSize(a: Asm, at: int, ctx: Ctx)
    ensures Size(Resolve(a, at, ctx)) == Size(a)
  {
  }

  // ---------- splitting code ----------

  lemma Split2(code: Code, at: int, xs: seq<Asm>, ys: seq<Asm>, ctx: Ctx)
    requires CodeAt(code, at, xs + ys, ctx)
    ensures CodeAt(code, at, xs, ctx) && CodeAt(code, at + SizeAll(xs), ys, ctx)
    ensures SizeAll(xs + ys) == SizeAll(xs) + SizeAll(ys)
  {
    CodeAtAppend(code, at, xs, ys, ctx);
    SizeAppend(xs, ys);
  }

  lemma Split3(code: Code, at: int, xs: seq<Asm>, ys: seq<Asm>, zs: seq<Asm>, ctx: Ctx)
    requires CodeAt(code, at, xs + ys + zs, ctx)
    ensures CodeAt(code, at, xs, ctx) && CodeAt(code, at + SizeAll(xs), ys, ctx)
    ensures CodeAt(code, at + SizeAll(xs) + SizeAll(ys), zs, ctx)
    ensures SizeAll(xs + ys + zs) == SizeAll(xs) + SizeAll(ys) + SizeAll(zs)
  {
    Split2(code, at, xs + ys, zs, ctx);
    Split2(code, at, xs, ys, ctx);
  }

  // ---------- homes ----------

  function HomeAddr(m: M, k: nat): int { m.regs[RBP] - 8 * (k + 1) }

  /** The location is a register, or a slot that is a cell of the stack. */
  predicate HomeOk(m: M, l: Loc) {
    l.Slot? ==> 0 <= HomeAddr(m, l.k) && HomeAddr(m, l.k) in m.stack
  }

  function Home(m: M, l: Loc): Word
    requires HomeOk(m, l)
  {
    match l case Reg(r) => m.regs[PhysId(r)] case Slot(k) => m.stack[HomeAddr(m, k)]
  }

  function SetHome(m: M, l: Loc, w: Word): M {
    match l
    case Reg(r) => m.(regs := m.regs[PhysId(r) := w])
    case Slot(k) => m.(stack := m.stack[HomeAddr(m, k) := w])
  }

  lemma SlotEa(m: M, k: nat)
    requires 0 <= HomeAddr(m, k)
    ensures Ea(m, RBP, SlotDisp(k)) == HomeAddr(m, k)
  {
  }

  predicate Scratch(r: RegId) { r != RSP && r != RBP && r != RBX && r < 12 }

  /** Equal up to rip, flags and scratch registers. */
  ghost predicate Agree(a: M, b: M) {
    && a.stack == b.stack && a.heap == b.heap
    && forall r: RegId :: !Scratch(r) ==> a.regs[r] == b.regs[r]
  }

  /** A run of `size` bytes of code that leaves `w` in the home `dl` and nothing else changed. */
  ghost predicate Sets(code: Code, m: M, m': M, size: nat, dl: Loc, w: Word) {
    Star(code, m, m') && m'.rip == m.rip + size && Agree(m', SetHome(m, dl, w))
  }

  lemma RunGet(code: Code, ctx: Ctx, m: M, into: RegId, l: Loc) returns (m': M)
    requires CodeAt(code, m.rip, Get(into, l), ctx) && HomeOk(m, l)
    ensures m' == Past(m, SizeAll(Get(into, l))).(regs := m.regs[into := Home(m, l)])
    ensures Star(code, m, m')
  {
    m' := Past(m, SizeAll(Get(into, l))).(regs := m.regs[into := Home(m, l)]);
    if Get(into, l) == [] {
      assert m.regs[into := Home(m, l)] == m.regs;
      StarRefl(code, m);
    } else {
      var a := Get(into, l)[0];
      assert Get(into, l) == [a] && SizeAll([a]) == Size(a);
      if l.Slot? { SlotEa(Past(m, Size(a)), l.k); }
      OneStep(code, ctx, m, a, m');
    }
  }

  lemma RunPut(code: Code, ctx: Ctx, m: M, from: RegId, l: Loc) returns (m': M)
    requires CodeAt(code, m.rip, Put(from, l), ctx) && HomeOk(m, l)
    ensures m' == SetHome(Past(m, SizeAll(Put(from, l))), l, m.regs[from])
    ensures Star(code, m, m')
  {
    m' := SetHome(Past(m, SizeAll(Put(from, l))), l, m.regs[from]);
    if Put(from, l) == [] {
      assert m.regs[from := m.regs[from]] == m.regs;
      StarRefl(code, m);
    } else {
      var a := Put(from, l)[0];
      assert Put(from, l) == [a] && SizeAll([a]) == Size(a);
      if l.Slot? { SlotEa(Past(m, Size(a)), l.k); }
      OneStep(code, ctx, m, a, m');
    }
  }
}
